/**
 Where authority comes from: every handler that needs a session runs for a token that a login of the same
 Google subject issued less than a day before, and the token's admin flag is the one its row had when
 that login read it.
 */
module Provenance {
  import opened Wire
  import opened Usernames
  import opened Accounts
  import opened Tokens
  import opened Sessions
  import opened Runs

  /** A login for this subject began at that step. */
  predicate Began(acts: seq<Action>, began: nat, sub: string) {
    began < |acts| && acts[began].Login? && acts[began].google.sub == sub
  }

  /** The row a login read at a step, for the subject it began with. */
  predicate ReadRow(ss: seq<State>, acts: seq<Action>, k: nat, id: Id, admin: bool, readAt: nat, began: nat) {
    && began < readAt <= k < |ss|
    && id in ss[readAt].users
    && ss[readAt].users[id].admin == admin
    && Began(acts, began, ss[readAt].users[id].sub)
  }

  /** A handler started at that step with a token that was live. */
  predicate Admitted(ss: seq<State>, k: nat, token: Token, startedAt: nat) {
    startedAt < k < |ss| && Valid(token, Issued(ss[startedAt]), ss[startedAt].clock)
  }

  /** What each call in progress at step `k` can refer back to. */
  predicate CallFits(ss: seq<State>, acts: seq<Action>, k: nat, call: Call)
    requires k < |ss|
  {
    match call
    case Selecting(google, began) => began < k && Began(acts, began, google.sub)
    case Inserting(google, began) => began < k && Began(acts, began, google.sub)
    case Refreshing(google, id, seen, readAt, began) => ReadRow(ss, acts, k, id, seen.admin, readAt, began)
    case Naming(id, left, began) => began < k && id in ss[k].users && Began(acts, began, ss[k].users[id].sub)
    case RereadingName(id, left, began) => began < k && id in ss[k].users && Began(acts, began, ss[k].users[id].sub)
    case GivingUp(id, began) => began < k && id in ss[k].users && Began(acts, began, ss[k].users[id].sub)
    case Issuing(id, row, readAt, began) => ReadRow(ss, acts, k, id, row.admin, readAt, began)
    case Renaming(token, startedAt, username) => Admitted(ss, k, token, startedAt)
    case RereadingProfile(token, startedAt) => Admitted(ss, k, token, startedAt)
    case Viewing(token, startedAt) => Admitted(ss, k, token, startedAt)
    case Listing(token, startedAt) => Admitted(ss, k, token, startedAt) && token.claims.admin
    case Answered(_) => true
  }

  predicate IssueFits(ss: seq<State>, acts: seq<Action>, k: nat, i: Issue)
    requires k < |ss|
  {
    && i.readAt <= i.issuedAt < k
    && ReadRow(ss, acts, k, i.token.claims.user, i.token.claims.admin, i.readAt, i.began)
    && i.token == IssueJWT(i.token.claims.user, i.token.claims.admin, ss[i.issuedAt].clock)
  }

  predicate Fits(ss: seq<State>, acts: seq<Action>, k: nat)
    requires k < |ss|
  {
    && (forall c | c in ss[k].calls :: CallFits(ss, acts, k, ss[k].calls[c]))
    && (forall i | i in ss[k].issues :: IssueFits(ss, acts, k, i))
  }

  /** A handler that asks for a session, between its first and its last statement. */
  predicate Handling(call: Call) {
    call.Renaming? || call.RereadingProfile? || call.Viewing? || call.Listing?
  }

  // ---------------------------------------------------------------- every step keeps it

  lemma CallStillFits(ss: seq<State>, acts: seq<Action>, k: nat, call: Call)
    requires k + 1 < |ss| && CallFits(ss, acts, k, call) && Grows(ss[k].users, ss[k + 1].users)
    ensures CallFits(ss, acts, k + 1, call)
  {
  }

  lemma StatementFits(ss: seq<State>, acts: seq<Action>, k: nat, call: Call, c: Choice)
    requires IsRun(ss, acts) && k + 1 < |ss| == |acts| + 1 && ss[k].step == k && CallFits(ss, acts, k, call)
    requires ss[k + 1].users == Statement(ss[k], call, c).users && Grows(ss[k].users, ss[k + 1].users)
    ensures CallFits(ss, acts, k + 1, Statement(ss[k], call, c).next)
  {
    if call.Selecting? || call.Inserting? || call.Refreshing? {
      UpsertFits(ss, acts, k, call, c);
    } else if call.Naming? || call.RereadingName? || call.GivingUp? {
      hide IsRun, Step, Taken, TableOk, WellFormed, Insert, Refresh, Grows;
      StatementGrows(ss, k);
    } else {
      HandlerFits(ss, acts, k, call, c);
    }
  }

  lemma HandlerFits(ss: seq<State>, acts: seq<Action>, k: nat, call: Call, c: Choice)
    requires Handling(call) || call.Issuing? || call.Answered?
    requires IsRun(ss, acts) && k + 1 < |ss| == |acts| + 1 && ss[k].step == k && CallFits(ss, acts, k, call)
    requires ss[k + 1].users == Statement(ss[k], call, c).users && Grows(ss[k].users, ss[k + 1].users)
    ensures CallFits(ss, acts, k + 1, Statement(ss[k], call, c).next)
  {
    hide IsRun, Step, Valid, Insert, Refresh, SetUsername, IssueJWT, ReadRow, Grows;
  }

  lemma UpsertFits(ss: seq<State>, acts: seq<Action>, k: nat, call: Call, c: Choice)
    requires call.Selecting? || call.Inserting? || call.Refreshing?
    requires IsRun(ss, acts) && k + 1 < |ss| == |acts| + 1 && ss[k].step == k && CallFits(ss, acts, k, call)
    requires ss[k + 1].users == Statement(ss[k], call, c).users && Grows(ss[k].users, ss[k + 1].users)
    ensures CallFits(ss, acts, k + 1, Statement(ss[k], call, c).next)
  {
    hide IsRun, Step, Taken, IssueJWT, TableOk, WellFormed, Valid, SetUsername;
    if call.Refreshing? {
      hide Insert;
      RowsStay(ss, acts, call.readAt, k + 1);
    } else {
      hide Refresh;
    }
  }

  lemma StatementGrows(ss: seq<State>, k: nat)
    requires k + 1 < |ss| && Grows(ss[k].users, ss[k + 1].users)
    ensures forall i | i in ss[k].users :: i in ss[k + 1].users && ss[k + 1].users[i].sub == ss[k].users[i].sub
  {
  }

  lemma StartedFits(ss: seq<State>, acts: seq<Action>, k: nat, rpc: Rpc, header: Header, username: string)
    requires k + 1 < |ss| && ss[k].step == k && rpc !in PUBLIC_RPCS
    ensures CallFits(ss, acts, k + 1, Started(ss[k], rpc, header, username))
  {
    HandlerRuns(rpc, header, Issued(ss[k]), ss[k].clock);
  }

  lemma CallsFitNext(ss: seq<State>, acts: seq<Action>, k: nat, c: nat)
    requires IsRun(ss, acts) && k < |acts| && Fits(ss, acts, k) && c in ss[k + 1].calls
    ensures CallFits(ss, acts, k + 1, ss[k + 1].calls[c])
  {
    var a := acts[k];
    StepOf(ss, acts, k);
    StepIsMonotone(ss[k], a);
    if c in ss[k].calls && ss[k + 1].calls[c] == ss[k].calls[c] {
      assert CallFits(ss, acts, k, ss[k].calls[c]);
      hide CallFits, Statement, Started;
      CallStillFits(ss, acts, k, ss[k].calls[c]);
    } else if a.Proceed? {
      assert CallFits(ss, acts, k, ss[k].calls[c]);
      hide CallFits, Statement, Started;
      StatementFits(ss, acts, k, ss[k].calls[c], a.choice);
    } else if a.Request? {
      hide CallFits, Statement, Started;
      StartedFits(ss, acts, k, a.rpc, a.header, a.username);
    } else {
      assert a.Login?;
    }
  }

  lemma IssuesFitNext(ss: seq<State>, acts: seq<Action>, k: nat, i: Issue)
    requires IsRun(ss, acts) && k < |acts| && Fits(ss, acts, k) && i in ss[k + 1].issues
    ensures IssueFits(ss, acts, k + 1, i)
  {
    StepOf(ss, acts, k);
    if i !in ss[k].issues {
      assert CallFits(ss, acts, k, ss[k].calls[acts[k].call]);
    } else {
      assert IssueFits(ss, acts, k, i);
    }
    hide Statement, Started;
  }

  lemma {:induction false} RunFits(ss: seq<State>, acts: seq<Action>, k: nat)
    requires IsRun(ss, acts) && k < |ss| == |acts| + 1
    ensures Fits(ss, acts, k)
    decreases k
  {
    hide CallFits, IssueFits, Step;
    if k > 0 {
      RunFits(ss, acts, k - 1);
      forall c | c in ss[k].calls ensures CallFits(ss, acts, k, ss[k].calls[c]) {
        CallsFitNext(ss, acts, k - 1, c);
      }
      forall i | i in ss[k].issues ensures IssueFits(ss, acts, k, i) {
        IssuesFitNext(ss, acts, k - 1, i);
      }
    }
  }

  // ---------------------------------------------------------------- main results

  /** The issue the token of a handler comes from. */
  predicate Source(ss: seq<State>, acts: seq<Action>, token: Token, startedAt: nat, i: Issue)
    requires startedAt < |ss|
  {
    var u := token.claims.user;
    && i.token == token
    && i.began < i.readAt <= i.issuedAt < startedAt
    && u in ss[i.readAt].users
    && Began(acts, i.began, ss[i.readAt].users[u].sub)
    && ss[i.readAt].users[u].admin == token.claims.admin
    && ss[i.issuedAt].clock <= ss[startedAt].clock < ss[i.issuedAt].clock + DAY
  }

  /** Every live token has such an issue. */
  lemma LiveTokenHasSource(ss: seq<State>, acts: seq<Action>, at: nat, token: Token)
    requires IsRun(ss, acts) && at < |ss| == |acts| + 1 && Valid(token, Issued(ss[at]), ss[at].clock)
    ensures exists i | i in ss[at].issues :: Source(ss, acts, token, at, i)
  {
    RunFits(ss, acts, at);
    var i :| i in ss[at].issues && i.token == token;
    assert IssueFits(ss, acts, at, i);
    hide IsRun, Step, CallFits;
    RowsStay(ss, acts, i.issuedAt, at);
    ExpiryWindow(token.claims.user, token.claims.admin, ss[i.issuedAt].clock);
    assert Source(ss, acts, token, at, i);
  }

  /** Whenever the interceptor lets a non-public handler run, whatever the handler then does, it runs with
      the claims of a token that a login for the same Google subject issued less than 24 hours before, with
      the admin flag its row had when that login read it; `ListUsers` only if that flag was set. */
  lemma RequestProvenance(ss: seq<State>, acts: seq<Action>, k: nat)
    requires IsRun(ss, acts) && k < |acts| && |ss| == |acts| + 1
    requires acts[k].Request? && acts[k].rpc !in PUBLIC_RPCS
    requires Intercept(acts[k].rpc, acts[k].header, Issued(ss[k]), ss[k].clock).Ok?
    ensures acts[k].header.Bearer? && acts[k].header.credential.Genuine?
    ensures var token := acts[k].header.credential.token;
      && Intercept(acts[k].rpc, acts[k].header, Issued(ss[k]), ss[k].clock) == Ok(Some(token.claims))
      && (acts[k].rpc == ListUsers ==> token.claims.admin)
      && exists i | i in ss[k].issues :: Source(ss, acts, token, k, i)
  {
    HandlerRuns(acts[k].rpc, acts[k].header, Issued(ss[k]), ss[k].clock);
    hide IsRun, Source, Valid, Intercept;
    LiveTokenHasSource(ss, acts, k, acts[k].header.credential.token);
  }

  /** The same for the handlers in progress, from their first statement to their last: the token they
      started with. */
  lemma TokenProvenance(ss: seq<State>, acts: seq<Action>, k: nat, c: nat)
    requires IsRun(ss, acts) && k < |ss| == |acts| + 1 && c in ss[k].calls && Handling(ss[k].calls[c])
    ensures var call := ss[k].calls[c];
      call.startedAt < k && exists i | i in ss[call.startedAt].issues :: Source(ss, acts, call.token, call.startedAt, i)
  {
    RunFits(ss, acts, k);
    assert CallFits(ss, acts, k, ss[k].calls[c]);
    hide IsRun, Source, Valid;
    LiveTokenHasSource(ss, acts, ss[k].calls[c].startedAt, ss[k].calls[c].token);
  }

  /** `ListUsers` reads the table only for a row that was an admin when its login read it. */
  lemma ListingNeedsAnAdmin(ss: seq<State>, acts: seq<Action>, k: nat, c: nat)
    requires IsRun(ss, acts) && k < |ss| == |acts| + 1 && c in ss[k].calls && ss[k].calls[c].Listing?
    ensures ss[k].calls[c].startedAt < k
    ensures exists i | i in ss[ss[k].calls[c].startedAt].issues ::
      && Source(ss, acts, ss[k].calls[c].token, ss[k].calls[c].startedAt, i)
      && ss[i.readAt].users[i.token.claims.user].admin
  {
    TokenProvenance(ss, acts, k, c);
    RunFits(ss, acts, k);
    assert CallFits(ss, acts, k, ss[k].calls[c]);
  }

  /** A token says at its issue what its row says at that moment exactly when the operator has not, since
      the login read the row, last written the other flag. */
  lemma CurrentAtIssue(ss: seq<State>, acts: seq<Action>, k: nat, i: Issue)
    requires IsRun(ss, acts) && k < |ss| == |acts| + 1 && i in ss[k].issues
    ensures i.readAt <= i.issuedAt < k && i.token.claims.user in ss[i.issuedAt].users
    ensures ss[i.issuedAt].users[i.token.claims.user].admin == i.token.claims.admin
      <==> LastFlip(acts, i.token.claims.user, i.readAt, i.issuedAt) != Some(!i.token.claims.admin)
  {
    RunFits(ss, acts, k);
    assert IssueFits(ss, acts, k, i);
    hide IsRun, Step, CallFits;
    OnlyTheOperatorFlips(ss, acts, i.token.claims.user, i.readAt, i.issuedAt);
  }
}
