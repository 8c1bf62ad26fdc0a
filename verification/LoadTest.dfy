/**
 The load test: workers that count requests in two atomic counters, keep latencies of their own, and at
 the end merge them into one list under a lock. Reading the list and writing it back are two steps.
 */
module LoadTest {
  import opened Wire

  datatype Worker =
    | Looping(local: seq<nat>)                        // about to look at the deadline
    | Requesting(local: seq<nat>)                     // in a request
    | Counted(local: seq<nat>, failed: bool, ns: nat)   // between the two counter updates
    | Merging(local: seq<nat>)                        // waiting for the lock
    | Holding(local: seq<nat>)                        // holds the lock
    | Loaded(local: seq<nat>, seen: seq<nat>)            // has read the shared list
    | Stored                                         // has written it back, still holds the lock
    | Gone

  /** `measured` collects the latency of every request that succeeded; no worker looks at it. */
  datatype State = State(total: nat, errors: nat, latencies: seq<nat>, lock: Option<nat>, workers: seq<Worker>, measured: multiset<nat>)

  datatype Action =
    | Look(worker: nat, expired: bool)
    | Finish(worker: nat, failed: bool, ns: nat)
    | Record(worker: nat)
    | Lock(worker: nat)
    | Load(worker: nat)
    | Store(worker: nat)
    | Unlock(worker: nat)

  predicate Init(s: State) {
    && s.total == 0 && s.errors == 0 && s.latencies == [] && s.lock == None && s.measured == multiset{}
    && forall w | 0 <= w < |s.workers| :: s.workers[w] == Looping([])
  }

  function Set(s: State, w: nat, worker: Worker): State
    requires w < |s.workers|
  {
    s.(workers := s.workers[w := worker])
  }

  function Step(s: State, a: Action): State {
    if a.worker >= |s.workers| then s
    else
      var w, worker := a.worker, s.workers[a.worker];
      match a
      case Look(_, expired) =>
        if !worker.Looping? then s
        else Set(s, w, if expired then Merging(worker.local) else Requesting(worker.local))
      case Finish(_, failed, ns) =>
        if !worker.Requesting? then s
        else
          Set(s, w, Counted(worker.local, failed, ns))
            .(total := s.total + 1, measured := s.measured + if failed then multiset{} else multiset{ns})
      case Record(_) =>
        if !worker.Counted? then s
        else if worker.failed then Set(s, w, Looping(worker.local)).(errors := s.errors + 1)
        else Set(s, w, Looping(worker.local + [worker.ns]))
      case Lock(_) =>
        if !worker.Merging? || s.lock.Some? then s else Set(s, w, Holding(worker.local)).(lock := Some(w))
      case Load(_) =>
        if !worker.Holding? then s else Set(s, w, Loaded(worker.local, s.latencies))
      case Store(_) =>
        if !worker.Loaded? then s else Set(s, w, Stored).(latencies := worker.seen + worker.local)
      case Unlock(_) =>
        if !worker.Stored? then s else Set(s, w, Gone).(lock := None)
  }

  // ---------------------------------------------------------------- what the workers hold

  function Local(w: Worker): seq<nat> {
    if w.Stored? || w.Gone? then [] else w.local
  }

  /** The latencies a worker answers for that the shared list does not have. */
  function Share(w: Worker): seq<nat> {
    if w.Counted? && !w.failed then w.local + [w.ns] else Local(w)
  }

  function Unmerged(w: Worker): multiset<nat> {
    multiset(Share(w))
  }

  function AllUnmerged(ws: seq<Worker>): multiset<nat> {
    if ws == [] then multiset{} else Unmerged(ws[0]) + AllUnmerged(ws[1..])
  }

  function LocalCount(ws: seq<Worker>): nat {
    if ws == [] then 0 else |Local(ws[0])| + LocalCount(ws[1..])
  }

  /** Workers between the two counter updates. */
  function Between(ws: seq<Worker>): nat {
    if ws == [] then 0 else (if ws[0].Counted? then 1 else 0) + Between(ws[1..])
  }

  predicate HoldsLock(w: Worker) {
    w.Holding? || w.Loaded? || w.Stored?
  }

  predicate Counts(s: State) {
    s.total == s.errors + |s.latencies| + LocalCount(s.workers) + Between(s.workers)
  }

  predicate Measures(s: State) {
    s.measured == multiset(s.latencies) + AllUnmerged(s.workers)
  }

  /** The lock is held by at most one worker, and what it has read is still the list. */
  predicate Locks(s: State) {
    && (forall w | 0 <= w < |s.workers| && HoldsLock(s.workers[w]) :: s.lock == Some(w))
    && (forall w | 0 <= w < |s.workers| && s.workers[w].Loaded? :: s.workers[w].seen == s.latencies)
  }

  predicate Inv(s: State) {
    Counts(s) && Measures(s) && Locks(s)
  }

  lemma {:induction false} ReplaceCounts(ws: seq<Worker>, w: nat, worker: Worker)
    requires w < |ws|
    ensures var vs := ws[w := worker];
      && LocalCount(vs) + |Local(ws[w])| == LocalCount(ws) + |Local(worker)|
      && Between(vs) + (if ws[w].Counted? then 1 else 0) == Between(ws) + (if worker.Counted? then 1 else 0)
    decreases |ws|
  {
    if w == 0 {
      assert ws[w := worker][1..] == ws[1..];
    } else {
      assert ws[w := worker][1..] == ws[1..][w - 1 := worker];
      ReplaceCounts(ws[1..], w - 1, worker);
    }
  }

  lemma {:induction false} ReplaceUnmerged(ws: seq<Worker>, w: nat, worker: Worker)
    requires w < |ws|
    ensures AllUnmerged(ws[w := worker]) + Unmerged(ws[w]) == AllUnmerged(ws) + Unmerged(worker)
    decreases |ws|
  {
    if w == 0 {
      assert ws[w := worker][1..] == ws[1..];
      Swap(Unmerged(worker), AllUnmerged(ws[1..]), Unmerged(ws[0]));
    } else {
      assert ws[w := worker][1..] == ws[1..][w - 1 := worker];
      ReplaceUnmerged(ws[1..], w - 1, worker);
      hide Unmerged, AllUnmerged;
      Shift(Unmerged(ws[0]), AllUnmerged(ws[1..][w - 1 := worker]), Unmerged(ws[w]), AllUnmerged(ws[1..]), Unmerged(worker));
      UnmergedOfMore(ws);
      UnmergedOfMore(ws[w := worker]);
    }
  }

  lemma UnmergedOfMore(ws: seq<Worker>)
    requires ws != []
    ensures AllUnmerged(ws) == Unmerged(ws[0]) + AllUnmerged(ws[1..])
  {
  }

  lemma Swap(a: multiset<nat>, b: multiset<nat>, c: multiset<nat>)
    ensures a + b + c == c + b + a
  {
  }

  lemma Shift(a: multiset<nat>, b: multiset<nat>, c: multiset<nat>, d: multiset<nat>, e: multiset<nat>)
    requires b + c == d + e
    ensures a + b + c == a + d + e
  {
    assert a + b + c == a + (b + c);
    assert a + d + e == a + (d + e);
  }

  /** One worker's share moves: what leaves it goes into the list, what comes to it was just measured. */
  lemma Moves(measured: multiset<nat>, list: multiset<nat>, rest: multiset<nat>, was: multiset<nat>, now: multiset<nat>,
              list': multiset<nat>, rest': multiset<nat>, added: multiset<nat>)
    requires measured == list + rest
    requires rest' + was == rest + now
    requires list' + now == list + was + added
    ensures measured + added == list' + rest'
  {
    forall x ensures (measured + added)[x] == (list' + rest')[x] {
      assert measured[x] == list[x] + rest[x];
      assert (rest' + was)[x] == (rest + now)[x];
      assert (list' + now)[x] == (list + was + added)[x];
    }
  }

  lemma {:induction false} NothingUnmerged(ws: seq<Worker>)
    requires forall w | 0 <= w < |ws| :: Unmerged(ws[w]) == multiset{} && Local(ws[w]) == [] && !ws[w].Counted?
    ensures AllUnmerged(ws) == multiset{} && LocalCount(ws) == 0 && Between(ws) == 0
    decreases |ws|
  {
    if ws != [] {
      NothingUnmerged(ws[1..]);
    }
  }

  lemma StepKeepsCounts(s: State, a: Action)
    requires Counts(s) && Locks(s)
    ensures Counts(Step(s, a))
  {
    if a.worker < |s.workers| {
      var was, now := s.workers[a.worker], Step(s, a).workers[a.worker];
      OneWorker(s, a);
      ReplaceCounts(s.workers, a.worker, now);
      CountsMove(s, a, was, now);
      hide LocalCount, Between, Locks, Local, Step, Added;
    }
  }

  /** What a worker's step does to the counters, the list and its own share. */
  lemma CountsMove(s: State, a: Action, was: Worker, now: Worker)
    requires Locks(s) && a.worker < |s.workers| && was == s.workers[a.worker] && now == Step(s, a).workers[a.worker]
    ensures var t := Step(s, a);
      t.total - t.errors - |t.latencies| - |Local(now)| - (if now.Counted? then 1 else 0)
      == s.total - s.errors - |s.latencies| - |Local(was)| - (if was.Counted? then 1 else 0)
  {
    if a.Store? && was.Loaded? {
      LoadedIsList(s, a.worker);
    }
    hide Locks;
  }

  /** What a step of a worker adds to the measured latencies. */
  function Added(s: State, a: Action): multiset<nat>
    requires a.worker < |s.workers|
  {
    if a.Finish? && s.workers[a.worker].Requesting? && !a.failed then multiset{a.ns} else multiset{}
  }

  lemma StepKeepsMeasured(s: State, a: Action)
    requires Measures(s) && Locks(s)
    ensures Measures(Step(s, a))
  {
    if a.worker < |s.workers| {
      var t := Step(s, a);
      var was, now := s.workers[a.worker], t.workers[a.worker];
      OneWorker(s, a);
      ReplaceUnmerged(s.workers, a.worker, now);
      ShareMoves(s, a, was, now);
      hide AllUnmerged, Locks, Unmerged, Step, Added;
      Moves(s.measured, multiset(s.latencies), AllUnmerged(s.workers), Unmerged(was), Unmerged(now),
        multiset(t.latencies), AllUnmerged(t.workers), Added(s, a));
    }
  }

  /** A step of one worker leaves the others as they are. */
  lemma OneWorker(s: State, a: Action)
    requires a.worker < |s.workers|
    ensures |Step(s, a).workers| == |s.workers|
    ensures Step(s, a).workers == s.workers[a.worker := Step(s, a).workers[a.worker]]
    ensures Step(s, a).measured == s.measured + Added(s, a)
  {
  }

  lemma ShareMoves(s: State, a: Action, was: Worker, now: Worker)
    requires Locks(s) && a.worker < |s.workers| && was == s.workers[a.worker] && now == Step(s, a).workers[a.worker]
    ensures multiset(Step(s, a).latencies) + Unmerged(now) == multiset(s.latencies) + Unmerged(was) + Added(s, a)
  {
    if a.Store? && was.Loaded? {
      StoreMoves(s, a);
    } else {
      OtherStepsKeepList(s, a);
      OtherStepsMove(s, a);
    }
    hide *;
    Regroup(multiset(s.latencies), Unmerged(was), Added(s, a));
  }

  lemma Regroup(a: multiset<nat>, b: multiset<nat>, c: multiset<nat>)
    ensures a + (b + c) == a + b + c
  {
  }

  lemma StoreMoves(s: State, a: Action)
    requires Locks(s) && a.worker < |s.workers| && a.Store? && s.workers[a.worker].Loaded?
    ensures multiset(Step(s, a).latencies) + Unmerged(Step(s, a).workers[a.worker])
         == multiset(s.latencies) + Unmerged(s.workers[a.worker]) + Added(s, a)
  {
    LoadedIsList(s, a.worker);
    var was := s.workers[a.worker];
    assert multiset(was.seen + was.local) == multiset(was.seen) + multiset(was.local);
  }

  lemma OtherStepsKeepList(s: State, a: Action)
    requires a.worker < |s.workers| && !(a.Store? && s.workers[a.worker].Loaded?)
    ensures Step(s, a).latencies == s.latencies
  {
  }

  lemma OtherStepsMove(s: State, a: Action)
    requires a.worker < |s.workers| && !(a.Store? && s.workers[a.worker].Loaded?)
    ensures Unmerged(Step(s, a).workers[a.worker]) == Unmerged(s.workers[a.worker]) + Added(s, a)
  {
    var was := s.workers[a.worker];
    if a.Finish? && was.Requesting? {
      FinishMoves(s, a);
    } else {
      SilentStep(s, a);
      hide Share, Step;
      assert Unmerged(s.workers[a.worker]) + multiset{} == Unmerged(s.workers[a.worker]);
    }
  }

  lemma FinishMoves(s: State, a: Action)
    requires a.worker < |s.workers| && a.Finish? && s.workers[a.worker].Requesting?
    ensures Unmerged(Step(s, a).workers[a.worker]) == Unmerged(s.workers[a.worker]) + Added(s, a)
  {
    var local := s.workers[a.worker].local;
    assert multiset(local + [a.ns]) == multiset(local) + multiset{a.ns};
  }

  lemma SilentStep(s: State, a: Action)
    requires a.worker < |s.workers| && !(a.Store? && s.workers[a.worker].Loaded?)
    requires !(a.Finish? && s.workers[a.worker].Requesting?)
    ensures Share(Step(s, a).workers[a.worker]) == Share(s.workers[a.worker])
  {
  }

  lemma LoadedIsList(s: State, w: nat)
    requires Locks(s) && w < |s.workers| && s.workers[w].Loaded?
    ensures s.workers[w].seen == s.latencies
  {
  }

  lemma StepKeepsLock(s: State, a: Action)
    requires Locks(s)
    ensures Locks(Step(s, a))
  {
  }

  lemma StepKeepsInv(s: State, a: Action)
    requires Inv(s)
    ensures Inv(Step(s, a))
  {
    StepKeepsCounts(s, a);
    StepKeepsMeasured(s, a);
    StepKeepsLock(s, a);
    hide Step, Counts, Measures, Locks;
  }

  function After(s: State, acts: seq<Action>): State
    decreases |acts|
  {
    if acts == [] then s else Step(After(s, acts[..|acts| - 1]), acts[|acts| - 1])
  }

  lemma StartBalances(s: State)
    requires Init(s)
    ensures Inv(s)
  {
    NothingUnmerged(s.workers);
  }

  lemma StepKeepsWorkers(s: State, a: Action)
    ensures |Step(s, a).workers| == |s.workers|
  {
  }

  /** In every interleaving the books balance: requests are errors, merged and unmerged latencies, and
      workers between the two counters; no latency is lost or doubled. */
  lemma {:induction false} BooksBalance(s: State, acts: seq<Action>)
    requires Init(s)
    ensures Inv(After(s, acts))
    ensures |After(s, acts).workers| == |s.workers|
    decreases |acts|
  {
    hide Step, AllUnmerged, LocalCount, Between, Unmerged;
    if acts == [] {
      StartBalances(s);
    } else {
      StepKeepsWorkers(After(s, acts[..|acts| - 1]), acts[|acts| - 1]);
      BooksBalance(s, acts[..|acts| - 1]);
      StepKeepsInv(After(s, acts[..|acts| - 1]), acts[|acts| - 1]);
    }
  }

  // ---------------------------------------------------------------- the requests of a run

  datatype Request = Request(failed: bool, ns: nat)

  /** What a step finishes: one request, or none. */
  function Finished(s: State, a: Action): seq<Request> {
    if a.Finish? && a.worker < |s.workers| && s.workers[a.worker].Requesting? then [Request(a.failed, a.ns)] else []
  }

  /** The requests that finish in a run, in order. */
  function Requests(s: State, acts: seq<Action>): seq<Request>
    decreases |acts|
  {
    if acts == [] then []
    else
      var front, a := acts[..|acts| - 1], acts[|acts| - 1];
      Requests(s, front) + Finished(After(s, front), a)
  }

  function Failures(rs: seq<Request>): nat {
    if rs == [] then 0 else Failures(rs[..|rs| - 1]) + if rs[|rs| - 1].failed then 1 else 0
  }

  /** The latencies of the requests that succeeded. */
  function Latencies(rs: seq<Request>): seq<nat> {
    if rs == [] then [] else Latencies(rs[..|rs| - 1]) + if rs[|rs| - 1].failed then [] else [rs[|rs| - 1].ns]
  }

  lemma {:induction false} FailuresAndLatencies(rs: seq<Request>)
    ensures |Latencies(rs)| + Failures(rs) == |rs|
    decreases |rs|
  {
    if rs != [] {
      FailuresAndLatencies(rs[..|rs| - 1]);
    }
  }

  lemma OneMoreRequest(rs: seq<Request>, r: Request)
    ensures multiset(Latencies(rs + [r])) == multiset(Latencies(rs)) + if r.failed then multiset{} else multiset{r.ns}
  {
    assert (rs + [r])[..|rs|] == rs;
  }

  lemma StepFinishes(s: State, a: Action)
    ensures Step(s, a).total == s.total + |Finished(s, a)|
    ensures Step(s, a).measured
      == s.measured + if Finished(s, a) == [] || Finished(s, a)[0].failed then multiset{} else multiset{Finished(s, a)[0].ns}
  {
    if a.worker < |s.workers| {
      OneWorker(s, a);
    }
  }

  lemma {:induction false} RequestsMeasured(s: State, acts: seq<Action>)
    requires Init(s)
    ensures After(s, acts).total == |Requests(s, acts)|
    ensures After(s, acts).measured == multiset(Latencies(Requests(s, acts)))
    decreases |acts|
  {
    if acts != [] {
      var front, a := acts[..|acts| - 1], acts[|acts| - 1];
      RequestsMeasured(s, front);
      var before, rs := After(s, front), Requests(s, front);
      StepFinishes(before, a);
      hide Latencies, Step, Finished, Init;
      if Finished(before, a) != [] {
        FinishedOne(before, a);
        OneMoreRequest(rs, Finished(before, a)[0]);
      } else {
        assert rs + [] == rs;
      }
    }
  }

  lemma FinishedOne(s: State, a: Action)
    requires Finished(s, a) != []
    ensures Finished(s, a) == [Finished(s, a)[0]]
  {
  }

  /** After the join the list holds exactly the latencies of the requests that succeeded, and the two
      counters are the requests and the failures of the run. */
  lemma AfterTheJoin(s: State, acts: seq<Action>)
    requires Init(s)
    requires forall w | 0 <= w < |After(s, acts).workers| :: After(s, acts).workers[w].Gone?
    ensures var end := After(s, acts);
      && end.errors <= end.total
      && |end.latencies| == end.total - end.errors
      && multiset(end.latencies) == end.measured
      && (|s.workers| > 0 || end == s)
    ensures var end, rs := After(s, acts), Requests(s, acts);
      && end.total == |rs|
      && end.errors == Failures(rs)
      && multiset(end.latencies) == multiset(Latencies(rs))
  {
    var end := After(s, acts);
    BooksBalance(s, acts);
    RequestsMeasured(s, acts);
    FailuresAndLatencies(Requests(s, acts));
    assert |multiset(end.latencies)| == |end.latencies|;
    assert |multiset(Latencies(Requests(s, acts)))| == |Latencies(Requests(s, acts))|;
    hide Requests, Latencies, Failures, Step;
    NothingUnmerged(end.workers);
    if |s.workers| == 0 {
      NoWorkersNoChange(s, acts);
    }
  }

  lemma {:induction false} NoWorkersNoChange(s: State, acts: seq<Action>)
    requires |s.workers| == 0
    ensures After(s, acts) == s
    decreases |acts|
  {
    if acts != [] {
      NoWorkersNoChange(s, acts[..|acts| - 1]);
    }
  }

  /** A worker past its deadline that gets the lock appends what it kept, and leaves the lock free. */
  lemma WorkerMerges(s: State, w: nat)
    requires w < |s.workers| && s.workers[w].Looping? && s.lock == None
    ensures var end := Step(Step(Step(Step(Step(s, Look(w, true)), Lock(w)), Load(w)), Store(w)), Unlock(w));
      end == s.(latencies := s.latencies + s.workers[w].local, workers := s.workers[w := Gone])
  {
    var asked := Step(s, Look(w, true));
    var held := Step(asked, Lock(w));
    var loaded := Step(held, Load(w));
    var stored := Step(loaded, Store(w));
    assert stored.workers == s.workers[w := Stored];
  }

  // ---------------------------------------------------------------- the report

  predicate Sorted(xs: seq<nat>) {
    forall i, j | 0 <= i <= j < |xs| :: xs[i] <= xs[j]
  }

  function Index(n: nat, percent: nat): nat {
    n * percent / 100
  }

  /** For a list that is not empty each percentile has an element, in order up to the largest one. */
  lemma PercentilesOrdered(xs: seq<nat>)
    requires Sorted(xs) && xs != []
    ensures var n := |xs|;
      && Index(n, 50) <= Index(n, 90) <= Index(n, 95) <= Index(n, 99) <= n - 1
      && xs[Index(n, 50)] <= xs[Index(n, 90)] <= xs[Index(n, 95)] <= xs[Index(n, 99)] <= xs[n - 1]
      && forall x | x in xs :: x <= xs[n - 1]
  {
  }

  /** The rank of a percentile below the hundredth: `percent` of a hundred of the latencies, rounded down,
      stand before it, all of them at most as large; those behind it are at least as large. */
  lemma PercentileRank(xs: seq<nat>, percent: nat)
    requires Sorted(xs) && xs != [] && percent < 100
    ensures var i := Index(|xs|, percent);
      && i < |xs|
      && 100 * |xs[..i]| <= |xs| * percent < 100 * (|xs[..i]| + 1)
      && (forall x | x in xs[..i] :: x <= xs[i])
      && (forall x | x in xs[i..] :: xs[i] <= x)
  {
    var i, product := Index(|xs|, percent), |xs| * percent;
    assert product == 100 * i + product % 100;
    BelowTheWhole(|xs|, percent);
  }

  lemma BelowTheWhole(n: nat, percent: nat)
    requires percent < 100 && n > 0
    ensures Index(n, percent) < n
  {
    assert n * percent < n * 100;
  }

  /** The share of `n` in `total`, in percent; zero of nothing. */
  function Percent(n: nat, total: nat): real {
    if total == 0 then 0.0 else n as real / total as real * 100.0
  }

  lemma PercentInRange(n: nat, total: nat)
    requires n <= total
    ensures 0.0 <= Percent(n, total) <= 100.0
    ensures Percent(n, total) == 100.0 <==> n == total && total != 0
    ensures Percent(n, total) == 0.0 <==> n == 0
    ensures Percent(n, total) * total as real == 100.0 * n as real
  {
    if total != 0 {
      var q := n as real / total as real;
      assert q * total as real == n as real;
    }
  }
}
