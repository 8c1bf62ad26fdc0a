/**
 How stale authority can be: when exactly a call of `ListUsers` is for someone who was an admin less than
 a day before, and runs in which it is not.
 */
module Stale {
  import opened Wire
  import opened Usernames
  import opened Accounts
  import opened Tokens
  import opened Sessions
  import opened Runs
  import opened Provenance

  // ---------------------------------------------------------------- exactly when it is not stale

  /** The row was an admin at some moment less than a day before step `at`. */
  predicate AdminWithinDay(ss: seq<State>, u: Id, at: nat)
    requires at < |ss|
  {
    exists j | 0 <= j <= at :: ss[at].clock < ss[j].clock + DAY && u in ss[j].users && ss[j].users[u].admin
  }

  /** The first step from `lo` on that is less than a day before step `at`. */
  function FirstRecent(ss: seq<State>, lo: nat, at: nat): (w: nat)
    requires lo <= at < |ss|
    ensures lo <= w <= at && ss[at].clock < ss[w].clock + DAY
    ensures forall j | lo <= j < w :: ss[j].clock + DAY <= ss[at].clock
    decreases at - lo
  {
    if ss[at].clock < ss[lo].clock + DAY then lo else FirstRecent(ss, lo + 1, at)
  }

  /** The operator makes the row an admin in the actions from `lo` up to `hi`. */
  predicate Promoted(acts: seq<Action>, u: Id, lo: nat, hi: nat)
    requires lo <= hi <= |acts|
  {
    exists o | lo <= o < hi :: acts[o].Operate? && u in acts[o].chosen && acts[o].admin
  }

  lemma {:induction false} FlippedUpIsPromoted(acts: seq<Action>, u: Id, lo: nat, hi: nat)
    requires lo <= hi <= |acts| && LastFlip(acts, u, lo, hi) == Some(true)
    ensures Promoted(acts, u, lo, hi)
    decreases hi
  {
    if lo < hi && !(acts[hi - 1].Operate? && u in acts[hi - 1].chosen) {
      FlippedUpIsPromoted(acts, u, lo, hi - 1);
    }
  }

  lemma PromotedIsAdmin(ss: seq<State>, acts: seq<Action>, u: Id, o: nat)
    requires IsRun(ss, acts) && o < |acts| && |ss| == |acts| + 1 && u in ss[o].users
    requires acts[o].Operate? && u in acts[o].chosen && acts[o].admin
    ensures u in ss[o + 1].users && ss[o + 1].users[u].admin
  {
    OnlyTheOperatorFlips(ss, acts, u, o, o + 1);
    LastFlipStep(acts, u, o, o + 1);
  }

  /** A row that was an admin when it was read was one within the day before a later step exactly when the
      operator had not last cleared its flag by the first moment of that day, or set it since. */
  lemma WithinDayExactly(ss: seq<State>, acts: seq<Action>, u: Id, readAt: nat, at: nat)
    requires IsRun(ss, acts) && readAt <= at < |ss| == |acts| + 1
    requires u in ss[readAt].users && ss[readAt].users[u].admin
    ensures var w := FirstRecent(ss, readAt, at);
      AdminWithinDay(ss, u, at) <==> LastFlip(acts, u, readAt, w) != Some(false) || Promoted(acts, u, w, at)
  {
    var w := FirstRecent(ss, readAt, at);
    hide IsRun, Step, LastFlip, FirstRecent;
    OnlyTheOperatorFlips(ss, acts, u, readAt, w);
    if AdminWithinDay(ss, u, at) {
      var j :| 0 <= j <= at && ss[at].clock < ss[j].clock + DAY && u in ss[j].users && ss[j].users[u].admin;
      if j < w {
        RowsStay(ss, acts, j, w);
        EarlierIsBefore(ss, acts, readAt, at, j);
        OnlyTheOperatorFlips(ss, acts, u, readAt, readAt);
      } else if !ss[w].users[u].admin {
        OnlyTheOperatorFlips(ss, acts, u, w, j);
        FlippedUpIsPromoted(acts, u, w, j);
      }
    } else if Promoted(acts, u, w, at) {
      var o :| w <= o < at && acts[o].Operate? && u in acts[o].chosen && acts[o].admin;
      RowsStay(ss, acts, w, o);
      RowsStay(ss, acts, w, o + 1);
      PromotedIsAdmin(ss, acts, u, o);
    }
  }

  /** A recent moment before the reading makes the reading recent. */
  lemma EarlierIsBefore(ss: seq<State>, acts: seq<Action>, readAt: nat, at: nat, j: nat)
    requires IsRun(ss, acts) && readAt <= at < |ss| == |acts| + 1 && j < FirstRecent(ss, readAt, at)
    requires ss[at].clock < ss[j].clock + DAY
    ensures j < readAt && FirstRecent(ss, readAt, at) == readAt
  {
    if j < readAt {
      RowsStay(ss, acts, j, readAt);
    }
  }

  /** `ListUsers` starts for someone who was an admin less than a day before exactly under that condition,
      and always if the operator had not last cleared the flag between the login's read and the issue. */
  lemma ListingWithinDay(ss: seq<State>, acts: seq<Action>, k: nat, c: nat, i: Issue)
    requires IsRun(ss, acts) && k < |ss| == |acts| + 1 && c in ss[k].calls && ss[k].calls[c].Listing?
    requires ss[k].calls[c].startedAt < |ss| && Source(ss, acts, ss[k].calls[c].token, ss[k].calls[c].startedAt, i)
    ensures var u, at := i.token.claims.user, ss[k].calls[c].startedAt;
      var w := FirstRecent(ss, i.readAt, at);
      AdminWithinDay(ss, u, at) <==> LastFlip(acts, u, i.readAt, w) != Some(false) || Promoted(acts, u, w, at)
    ensures LastFlip(acts, i.token.claims.user, i.readAt, i.issuedAt) != Some(false)
      ==> AdminWithinDay(ss, i.token.claims.user, ss[k].calls[c].startedAt)
  {
    RunFits(ss, acts, k);
    assert CallFits(ss, acts, k, ss[k].calls[c]);
    hide IsRun, Step, CallFits, LastFlip, FirstRecent;
    var u, at := i.token.claims.user, ss[k].calls[c].startedAt;
    WithinDayExactly(ss, acts, u, i.readAt, at);
    OnlyTheOperatorFlips(ss, acts, u, i.readAt, i.issuedAt);
  }

  // ---------------------------------------------------------------- runs in which it is

  function TheRow(admin: bool): Row {
    Row("sub", "mail", "name", None, Some("player"), admin, 0)
  }

  function Fine(): Choice {
    Choice(NoFault, 0, "")
  }

  function TheGoogle(): Google {
    Google("sub", "", "", "")
  }

  function TheToken(wait: nat): Token {
    IssueJWT(0, true, wait)
  }

  function StaleActions(wait: nat): seq<Action> {
    [Login(0, TheGoogle()), Proceed(0, Fine()), Proceed(0, Fine()), Operate({0}, false), Tick(wait), Proceed(0, Fine()),
     Request(1, ListUsers, Bearer(Genuine(TheToken(wait))), "")]
  }

  function StaleRun(wait: nat): seq<State> {
    var admin, demoted := map[0 := TheRow(true)], map[0 := TheRow(false)];
    var seen := Issuing(0, TheRow(true), 1, 0);
    var reply := Answered(Session(TheToken(wait), TheRow(true)));
    var issues := {Issue(TheToken(wait), 0, 1, 5)};
    [State(admin, map[], {}, 0, 0),
     State(admin, map[0 := Selecting(TheGoogle(), 0)], {}, 0, 1),
     State(admin, map[0 := Refreshing(TheGoogle(), 0, TheRow(true), 1, 0)], {}, 0, 2),
     State(admin, map[0 := seen], {}, 0, 3),
     State(demoted, map[0 := seen], {}, 0, 4),
     State(demoted, map[0 := seen], {}, wait, 5),
     State(demoted, map[0 := reply], issues, wait, 6),
     State(demoted, map[0 := reply, 1 := Listing(TheToken(wait), 6)], issues, wait, 7)]
  }

  lemma StaleStart(wait: nat)
    ensures Init(StaleRun(wait)[0])
  {
    assert WellFormed("player");
  }

  lemma StaleSteps0To2(wait: nat)
    ensures var ss, acts := StaleRun(wait), StaleActions(wait);
      ss[1] == Step(ss[0], acts[0]) && ss[2] == Step(ss[1], acts[1])
  {
  }

  lemma StaleSteps2To3(wait: nat)
    ensures var ss, acts := StaleRun(wait), StaleActions(wait); ss[3] == Step(ss[2], acts[2])
  {
    var ss := StaleRun(wait);
    assert Refresh(ss[2].users, 0, TheGoogle()) == ss[2].users;
  }

  lemma StaleSteps3To5(wait: nat)
    ensures var ss, acts := StaleRun(wait), StaleActions(wait);
      ss[4] == Step(ss[3], acts[3]) && ss[5] == Step(ss[4], acts[4])
  {
    hide IssueJWT, Statement;
  }

  lemma StaleSteps5To6(wait: nat)
    ensures var ss, acts := StaleRun(wait), StaleActions(wait); ss[6] == Step(ss[5], acts[5])
  {
    hide IssueJWT;
  }

  lemma StaleSteps6To7(wait: nat)
    ensures var ss, acts := StaleRun(wait), StaleActions(wait); ss[7] == Step(ss[6], acts[6])
  {
    var s := StaleRun(wait)[6];
    assert Issue(TheToken(wait), 0, 1, 5) in s.issues;
    assert TheToken(wait) in Issued(s);
    ExpiryWindow(0, true, wait);
    HandlerRuns(ListUsers, Bearer(Genuine(TheToken(wait))), Issued(s), s.clock);
  }

  /** Not a theorem: that whoever runs `ListUsers` was an admin within the day, or even when the token was
      issued. However long the wait, in this run the row has not been an admin for all of it. */
  lemma AuthorityCanBeStale(wait: nat)
    ensures IsRun(StaleRun(wait), StaleActions(wait))
    ensures var ss := StaleRun(wait);
      && ss[7].calls[1] == Listing(TheToken(wait), 6)
      && TheToken(wait).claims == Claims(0, true)
      && (forall j | 4 <= j <= 7 :: !ss[j].users[0].admin)
      && ss[7].clock - ss[4].clock == wait
  {
    var ss, acts := StaleRun(wait), StaleActions(wait);
    StaleStart(wait);
    StaleSteps0To2(wait);
    StaleSteps2To3(wait);
    StaleSteps3To5(wait);
    StaleSteps5To6(wait);
    StaleSteps6To7(wait);
    hide Step, Init;
    forall i | 0 <= i < |acts| ensures ss[i + 1] == Step(ss[i], acts[i]) {
      if i < 3 {
      } else if i < 6 {
      } else {
      }
    }
  }
}
