/**
 What holds over whole runs of the table: what no call can change, and who can.
 */
module Runs {
  import opened Wire
  import opened Usernames
  import opened Accounts
  import opened Tokens
  import opened Sessions

  // ---------------------------------------------------------------- the table

  /** A profile update under way only ever carries a username the pattern allows. */
  predicate CallsOk(calls: map<nat, Call>) {
    forall c | c in calls && calls[c].Renaming? :: calls[c].username == "" || WellFormed(calls[c].username)
  }

  lemma StatementKeepsTable(s: State, call: Call, c: Choice)
    requires TableOk(s.users)
    requires call.Renaming? ==> call.username == "" || WellFormed(call.username)
    ensures var o := Statement(s, call, c);
      TableOk(o.users) && Grows(s.users, o.users) && SameAdmins(s.users, o.users) && !o.next.Renaming?
  {
    hide TableOk, WellFormed, Taken;
    match call
    case Inserting(_, _) => hide Refresh, SetUsername;
    case Refreshing(_, _, _, _, _) => hide Insert, SetUsername;
    case Naming(_, _, _) => hide Insert, Refresh;
    case Renaming(_, _, _) => hide Insert, Refresh;
    case _ => hide Insert, Refresh, SetUsername;
  }

  lemma StepKeepsTable(s: State, a: Action)
    requires TableOk(s.users) && CallsOk(s.calls)
    ensures TableOk(Step(s, a).users) && CallsOk(Step(s, a).calls)
    ensures Grows(s.users, Step(s, a).users)
    ensures !a.Operate? ==> SameAdmins(s.users, Step(s, a).users)
  {
    if a.Proceed? && a.call in s.calls {
      StatementKeepsTable(s, s.calls[a.call], a.choice);
    }
    hide TableOk, Statement, WellFormed, Intercept;
  }

  lemma {:induction false} RunKeepsTable(ss: seq<State>, acts: seq<Action>, k: nat)
    requires IsRun(ss, acts) && k < |ss|
    ensures TableOk(ss[k].users) && CallsOk(ss[k].calls) && ss[k].step == k
    decreases k
  {
    if k > 0 {
      RunKeepsTable(ss, acts, k - 1);
      StepKeepsTable(ss[k - 1], acts[k - 1]);
    }
  }

  lemma StepIsMonotone(s: State, a: Action)
    requires TableOk(s.users) && CallsOk(s.calls)
    ensures Grows(s.users, Step(s, a).users) && s.clock <= Step(s, a).clock && s.issues <= Step(s, a).issues
  {
    StepKeepsTable(s, a);
  }

  /** No row disappears or changes its subject, the clock does not go back, and no token is taken back. */
  lemma {:induction false} RowsStay(ss: seq<State>, acts: seq<Action>, i: nat, j: nat)
    requires IsRun(ss, acts) && i <= j < |ss| == |acts| + 1
    ensures Grows(ss[i].users, ss[j].users) && ss[i].clock <= ss[j].clock && ss[i].issues <= ss[j].issues
    decreases j
  {
    if i < j {
      hide Step, IsRun, TableOk, CallsOk;
      RowsStay(ss, acts, i, j - 1);
      StepOf(ss, acts, j - 1);
      StepIsMonotone(ss[j - 1], acts[j - 1]);
    }
  }

  /** In every run, at every moment: one row per Google subject, no username twice, every username within
      the pattern. */
  lemma TableInvariant(ss: seq<State>, acts: seq<Action>, k: nat)
    requires IsRun(ss, acts) && k < |ss|
    ensures Unique(ss[k].users) && NamesWellFormed(ss[k].users)
  {
    RunKeepsTable(ss, acts, k);
  }

  /** A subject has the same id forever: whenever it appears again, it is the same row. */
  lemma SubjectKeepsId(ss: seq<State>, acts: seq<Action>, i: nat, j: nat, u: Id, v: Id)
    requires IsRun(ss, acts) && i <= j < |ss|
    requires u in ss[i].users && v in ss[j].users && ss[i].users[u].sub == ss[j].users[v].sub
    ensures u == v
  {
    RowsStay(ss, acts, i, j);
    TableInvariant(ss, acts, j);
  }

  // ---------------------------------------------------------------- admin flags

  lemma GrowsAt(before: Users, after: Users, u: Id)
    requires Grows(before, after) && u in before
    ensures u in after && after[u].sub == before[u].sub
  {
  }

  /** The last flag the operator wrote to a row in the actions from `lo` up to `hi`. */
  function LastFlip(acts: seq<Action>, u: Id, lo: nat, hi: nat): Option<bool>
    requires lo <= hi <= |acts|
    decreases hi - lo
  {
    if lo == hi then None
    else if acts[hi - 1].Operate? && u in acts[hi - 1].chosen then Some(acts[hi - 1].admin)
    else LastFlip(acts, u, lo, hi - 1)
  }

  /** A row's flag is what the operator last wrote: no call of any RPC changes it. */
  lemma {:induction false} OnlyTheOperatorFlips(ss: seq<State>, acts: seq<Action>, u: Id, lo: nat, hi: nat)
    requires IsRun(ss, acts) && lo <= hi < |ss| == |acts| + 1 && u in ss[lo].users
    ensures u in ss[hi].users
    ensures var flip := LastFlip(acts, u, lo, hi);
      ss[hi].users[u].admin == if flip.Some? then flip.value else ss[lo].users[u].admin
    decreases hi
  {
    hide TableOk, CallsOk, Statement, Started, IsRun, Grows;
    if lo < hi {
      OnlyTheOperatorFlips(ss, acts, u, lo, hi - 1);
      StepOf(ss, acts, hi - 1);
      StepKeepsTable(ss[hi - 1], acts[hi - 1]);
      GrowsAt(ss[hi - 1].users, ss[hi].users, u);
    }
  }

  /** An admin was one from the start, or was made one by the operator. */
  lemma {:induction false} AdminsAreMade(ss: seq<State>, acts: seq<Action>, u: Id, k: nat)
    requires IsRun(ss, acts) && k < |ss| == |acts| + 1 && u in ss[k].users && ss[k].users[u].admin
    ensures (u in ss[0].users && ss[0].users[u].admin) || LastFlip(acts, u, 0, k) == Some(true)
    decreases k
  {
    hide *;
    if k > 0 {
      StepOf(ss, acts, k - 1);
      AdminStep(ss[k - 1], acts[k - 1], u);
      LastFlipStep(acts, u, 0, k);
      if !(acts[k - 1].Operate? && u in acts[k - 1].chosen) {
        AdminsAreMade(ss, acts, u, k - 1);
      }
    }
  }

  lemma StepOf(ss: seq<State>, acts: seq<Action>, i: nat)
    requires IsRun(ss, acts) && i < |acts|
    ensures |ss| == |acts| + 1 && ss[i + 1] == Step(ss[i], acts[i])
    ensures TableOk(ss[i].users) && CallsOk(ss[i].calls) && ss[i].step == i
  {
    RunKeepsTable(ss, acts, i);
  }

  lemma LastFlipStep(acts: seq<Action>, u: Id, lo: nat, hi: nat)
    requires lo < hi <= |acts|
    ensures LastFlip(acts, u, lo, hi)
         == if acts[hi - 1].Operate? && u in acts[hi - 1].chosen then Some(acts[hi - 1].admin) else LastFlip(acts, u, lo, hi - 1)
  {
  }

  lemma AdminStep(s: State, a: Action, u: Id)
    requires TableOk(s.users) && CallsOk(s.calls) && u in Step(s, a).users && Step(s, a).users[u].admin
    ensures if a.Operate? && u in a.chosen then a.admin else u in s.users && s.users[u].admin
  {
    if u in s.users {
      StepKeepsTable(s, a);
    } else {
      NewRowsAreNoAdmins(s, a, u);
    }
    hide TableOk, CallsOk, Statement, Started;
  }

  lemma NewRowsAreNoAdmins(s: State, a: Action, u: Id)
    requires u !in s.users && u in Step(s, a).users
    ensures !Step(s, a).users[u].admin
  {
  }
}
