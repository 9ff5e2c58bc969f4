/** The `check` round of grading/workload.hpp (lines 328-388) on the transactional memory: workers fetch a
    shared counter in one transaction and decrease it in the next. */
module CounterCheck {
  import opened SharedMemory
  import opened Stm
  import opened StmInvariant
  import opened StmSteps
  import opened StmTheorems

  /** The first word of the region. */
  const COUNTER: Loc := Loc(0, 0)

  /** Lines 357-360 and 363-370; a decrease belongs to an iteration of a worker's loop. */
  datatype Body = Fetch | Decrease(worker: nat, iteration: nat, last: int)

  /** The trace is one of a whole body: a read, and for a decrease the write of line 368 unless the value
      read exceeds `last`. */
  predicate Ran(b: Body, ops: seq<Op>) {
    && |ops| > 0 && ops[0].Read? && ops[0].loc == COUNTER
    && ops[1..] == if b.Fetch? || !Correct(b, ops) then [] else [Store(COUNTER, ops[0].val - 1)]
  }

  /** What a decrease returns. */
  predicate Correct(b: Body, ops: seq<Op>)
    requires |ops| > 0 && ops[0].Read?
  {
    b.Decrease? ==> ops[0].val <= b.last
  }

  /** After version `c` every commit of the history is a whole decrease. */
  ghost predicate Counts(log: map<nat, Commit>, c: nat, bodies: seq<Body>) {
    forall w :: w in log && w > c ==>
      log[w].tid < |bodies| && bodies[log[w].tid].Decrease? && Ran(bodies[log[w].tid], log[w].ops)
  }

  predicate Decreased(b: Body, ops: seq<Op>) {
    b.Decrease? && Ran(b, ops) && Correct(b, ops)
  }

  predicate Wins(log: map<nat, Commit>, bodies: seq<Body>, w: nat)
    requires w in log
  {
    log[w].tid < |bodies| && Decreased(bodies[log[w].tid], log[w].ops)
  }

  /** Versions of the commits that decreased the counter. */
  function Winning(log: map<nat, Commit>, bodies: seq<Body>): set<nat> {
    set w | w in log && Wins(log, bodies, w)
  }

  /** How many of the versions lie in (c, v]. */
  ghost function CountIn(ws: set<nat>, c: nat, v: nat): nat {
    if v <= c then 0 else CountIn(ws, c, v - 1) + if v in ws then 1 else 0
  }

  /** Commits with versions in (c, v] that decreased the counter. */
  ghost function Decreases(log: map<nat, Commit>, c: nat, v: nat, bodies: seq<Body>): nat {
    CountIn(Winning(log, bodies), c, v)
  }

  lemma BodyEffect(b: Body, ops: seq<Op>, m: Memory)
    requires Ran(b, ops) && Legal(ops, m)
    ensures ops[0].val == m[COUNTER]
    ensures RunOps(ops, m)[COUNTER] == m[COUNTER] - if Decreased(b, ops) then 1 else 0
  {
    assert ops[..0] == [];
    assert ops[0].val == RunOps(ops[..0], m)[COUNTER];
    if |ops| == 1 {
      assert ops == [ops[0]] && ops[..|ops| - 1] == [];
    } else {
      assert ops[1] == ops[1..][0] == Store(COUNTER, ops[0].val - 1) && |ops| == 2;
      assert ops[..1] == [ops[0]] && ops[..1][..0] == [];
    }
  }

  /** The counter goes down by one with each commit that decreases it, and never up. */
  lemma {:induction false} CounterAt(s: State, c: nat, v: nat, bodies: seq<Body>)
    requires Inv(s) && Counts(s.log, c, bodies) && c <= v
    ensures SerialMem(s.log, v)[COUNTER] == SerialMem(s.log, c)[COUNTER] - Decreases(s.log, c, v, bodies)
    decreases v
  {
    if c < v {
      CounterAt(s, c, v - 1, bodies);
      if v in s.log {
        LoggedIsLegal(s, v);
        BodyEffect(bodies[s.log[v].tid], s.log[v].ops, SerialMem(s.log, v - 1));
      }
    }
  }

  lemma {:induction false} CountGrows(ws: set<nat>, c: nat, a: nat, v: nat)
    requires a <= v
    ensures CountIn(ws, c, a) <= CountIn(ws, c, v)
    decreases v
  {
    if a < v { CountGrows(ws, c, a, v - 1); }
  }

  // ---- Over runs ----

  /** From state `i` on, where all transactions begun so far have ended, clients run bodies of this check
      (one body per transaction, retries included). */
  ghost predicate Checking(run: seq<State>, i: nat, j: nat, bodies: seq<Body>)
    requires i <= j < |run|
  {
    && IsRun(run)
    && (forall t :: 0 <= t < |run[i].txs| ==> run[i].txs[t].pc.Finished?)
    && |run[j].txs| <= |bodies|
    && forall t :: |run[i].txs| <= t < |run[j].txs| ==>
         && (Decided(run[j].txs[t]) ==> bodies[t].Decrease? && Ran(bodies[t], run[j].txs[t].ops))
         && (run[j].txs[t].ro && Committed(run[j].txs[t]) ==> bodies[t].Fetch? && Ran(bodies[t], run[j].txs[t].ops))
  }

  /** Commits are of transactions begun after `i` exactly when their versions are larger than its clock. */
  lemma CommitOwner(run: seq<State>, i: nat, j: nat, bodies: seq<Body>, w: nat)
    requires i <= j < |run| && Checking(run, i, j, bodies) && w in run[j].log
    ensures var t := run[j].log[w].tid;
            && t < |run[j].txs| && Decided(run[j].txs[t]) && run[j].txs[t].wv == w
            && run[j].log[w].ops == run[j].txs[t].ops
            && (w > run[i].clock <==> t >= |run[i].txs|)
  {
    RunInv(run, j);
    var t := run[j].log[w].tid;
    assert TxInv(run[j], t);
    RunEffects(run);
    BegunLater(run, i, j, t);
    if t < |run[i].txs| {
      EndedIsFinal(run, i, j, t);
      RunInv(run, i);
      assert TxInv(run[i], t);
    }
  }

  lemma RunCounts(run: seq<State>, i: nat, j: nat, bodies: seq<Body>)
    requires i <= j < |run| && Checking(run, i, j, bodies)
    ensures Counts(run[j].log, run[i].clock, bodies)
  {
    forall w | w in run[j].log && w > run[i].clock
      ensures run[j].log[w].tid < |bodies| && bodies[run[j].log[w].tid].Decrease?
      ensures Ran(bodies[run[j].log[w].tid], run[j].log[w].ops)
    {
      CommitOwner(run, i, j, bodies, w);
    }
  }

  /** What a committed fetch with faithful copies returned. */
  lemma FetchedValue(run: seq<State>, i: nat, j: nat, bodies: seq<Body>, t: Tid)
    requires i <= j < |run| && Checking(run, i, j, bodies)
    requires |run[i].txs| <= t < |run[j].txs| && run[j].txs[t].ro && Committed(run[j].txs[t]) && Faithful(run[j], run[j].txs[t])
    ensures run[i].clock <= run[j].txs[t].rv
    ensures |run[j].txs[t].ops| > 0 && run[j].txs[t].ops[0].Read?
    ensures run[j].txs[t].ops[0].val == SerialMem(run[j].log, run[j].txs[t].rv)[COUNTER]
  {
    RunEffects(run);
    BegunLater(run, i, j, t);
    FaithfulSnapshot(run, j, t);
    BodyEffect(bodies[t], run[j].txs[t].ops, SerialMem(run[j].log, run[j].txs[t].rv));
  }

  /** `f` fetched `last` in a transaction that had ended at state `k`, before `t` began. */
  ghost predicate FetchedBefore(run: seq<State>, i: nat, k: nat, j: nat, f: Tid, t: Tid, last: int)
    requires i <= k <= j < |run|
  {
    && |run[i].txs| <= f < |run[k].txs| <= t < |run[j].txs| && f < |run[j].txs|
    && run[k].txs[f].ro && Committed(run[k].txs[f])
    && Faithful(run[j], run[k].txs[f])
    && |run[k].txs[f].ops| > 0 && run[k].txs[f].ops[0].Read? && run[k].txs[f].ops[0].val == last
  }

  /** The check of lines 371-374 never fails: a worker that fetched `last` in a transaction that ended
      before its decrease began finds a value that is not larger, and writes one less. */
  lemma DecreaseIsCorrect(run: seq<State>, i: nat, k: nat, j: nat, bodies: seq<Body>, f: Tid, t: Tid)
    requires i <= k <= j < |run| && Checking(run, i, j, bodies)
    requires t < |run[j].txs| && !run[j].txs[t].ro && Committed(run[j].txs[t])
    requires t < |bodies| && bodies[t].Decrease? && FetchedBefore(run, i, k, j, f, t, bodies[t].last)
    ensures Ran(bodies[t], run[j].txs[t].ops) && Correct(bodies[t], run[j].txs[t].ops)
    ensures var ops := run[j].txs[t].ops;
            |ops| == 2 && ops[0].Read? && ops[0].val <= bodies[t].last && ops[1] == Store(COUNTER, ops[0].val - 1)
  {
    RunEffects(run);
    EndedIsFinal(run, k, j, f);
    FetchedValue(run, i, j, bodies, f);
    CommitsAreSerial(run, j, t);
    RunCounts(run, i, j, bodies);
    RunInv(run, j);
    var x := run[j].txs[t];
    BodyEffect(bodies[t], x.ops, SerialMem(run[j].log, x.wv - 1));
    NotLater(run, k, j, f, t);
    CounterFalls(run[j], run[i].clock, run[j].txs[f].rv, x.wv - 1, bodies);
    DecreaseReports(bodies[t], x.ops);
  }

  /** Whatever it reads, a decrease reports a violation if and only if the value exceeds the one fetched, and
      otherwise writes one less. */
  lemma DecreaseReports(b: Body, ops: seq<Op>)
    requires b.Decrease? && Ran(b, ops)
    ensures ops[0].val > b.last <==> |ops| == 1
    ensures ops[0].val <= b.last ==> |ops| == 2 && ops[1] == Store(COUNTER, ops[0].val - 1)
  {
    if |ops| > 1 { assert ops[1..][0] == ops[1]; }
  }

  lemma NotLater(run: seq<State>, k: nat, j: nat, f: Tid, t: Tid)
    requires IsRun(run) && k <= j < |run|
    requires f < |run[k].txs| && run[k].txs[f].pc.Finished?
    requires |run[k].txs| <= t < |run[j].txs| && run[j].txs[t].wv > 0
    ensures f < |run[j].txs| && run[j].txs[f].rv <= run[j].txs[t].wv - 1
  {
    RunEffects(run);
    EndedIsFinal(run, k, j, f);
    BegunLater(run, k, j, t);
    RunInv(run, k);
    assert TxInv(run[k], f);
    RunInv(run, j);
    assert TxInv(run[j], t);
  }

  lemma CounterFalls(s: State, c: nat, a: nat, v: nat, bodies: seq<Body>)
    requires Inv(s) && Counts(s.log, c, bodies) && c <= a <= v
    ensures SerialMem(s.log, v)[COUNTER] <= SerialMem(s.log, a)[COUNTER]
  {
    CounterAt(s, c, a, bodies);
    CounterAt(s, c, v, bodies);
    CountGrows(Winning(s.log, bodies), c, a, v);
  }

  // ---- The last read ----

  function Between(ws: set<nat>, c: nat, v: nat): set<nat> {
    set w | w in ws && c < w <= v
  }

  /** Transactions from `first` on whose decrease committed. */
  function Winners(txs: seq<Tx>, first: nat, bodies: seq<Body>): set<nat>
    requires |txs| <= |bodies|
  {
    set t | first <= t < |txs| && Decided(txs[t]) && Decreased(bodies[t], txs[t].ops)
  }

  lemma {:induction false} CountIsSize(ws: set<nat>, c: nat, v: nat)
    requires c <= v
    ensures CountIn(ws, c, v) == |Between(ws, c, v)|
    decreases v
  {
    if v == c {
      assert Between(ws, c, v) == {};
    } else {
      CountIsSize(ws, c, v - 1);
      assert Between(ws, c, v) == Between(ws, c, v - 1) + if v in ws then {v} else {};
    }
  }

  /** Two finite sets that correspond one to one. */
  lemma {:induction false} SameSize<A, B>(xs: set<A>, ys: set<B>, to: map<A, B>, back: map<B, A>)
    requires forall x :: x in xs ==> x in to && to[x] in ys && to[x] in back && back[to[x]] == x
    requires forall y :: y in ys ==> y in back && back[y] in xs && back[y] in to && to[back[y]] == y
    ensures |xs| == |ys|
    decreases xs
  {
    if xs == {} {
      assert ys == {};
    } else {
      var x :| x in xs;
      SameSize(xs - {x}, ys - {to[x]}, to, back);
    }
  }

  lemma WinnersCount(run: seq<State>, i: nat, j: nat, v: nat, bodies: seq<Body>)
    requires i <= j < |run| && Checking(run, i, j, bodies)
    requires forall t :: |run[i].txs| <= t < |run[j].txs| && Decided(run[j].txs[t]) ==> run[j].txs[t].wv <= v
    ensures |Between(Winning(run[j].log, bodies), run[i].clock, v)| == |Winners(run[j].txs, |run[i].txs|, bodies)|
  {
    var s := run[j];
    var ws, ts := Between(Winning(s.log, bodies), run[i].clock, v), Winners(s.txs, |run[i].txs|, bodies);
    var owner: map<nat, nat> := map w | w in s.log :: s.log[w].tid;
    var version: map<nat, nat> := map t: nat | 0 <= t < |s.txs| && s.txs[t].wv >= 0 :: s.txs[t].wv;
    forall w | w in ws ensures w in owner && owner[w] in ts && owner[w] in version && version[owner[w]] == w {
      CommitOwner(run, i, j, bodies, w);
    }
    forall t | t in ts ensures t in version && version[t] in ws && version[t] in owner && owner[version[t]] == t {
      WinnerVersion(run, i, j, v, bodies, t);
    }
    SameSize(ws, ts, owner, version);
  }

  lemma WinnerVersion(run: seq<State>, i: nat, j: nat, v: nat, bodies: seq<Body>, t: Tid)
    requires i <= j < |run| && Checking(run, i, j, bodies)
    requires t in Winners(run[j].txs, |run[i].txs|, bodies) && run[j].txs[t].wv <= v
    ensures var x := run[j].txs[t];
            && x.wv > 0 && x.wv in run[j].log && run[j].log[x.wv].tid == t
            && x.wv in Between(Winning(run[j].log, bodies), run[i].clock, v)
  {
    RunInv(run, j);
    assert TxInv(run[j], t);
    CommitOwner(run, i, j, bodies, run[j].txs[t].wv);
  }

  /** The serial memory at the start of the check is not rewritten later. */
  lemma StartIsFinal(run: seq<State>, i: nat, j: nat, bodies: seq<Body>)
    requires i <= j < |run| && Checking(run, i, j, bodies)
    ensures SerialMem(run[j].log, run[i].clock)[COUNTER] == SerialMem(run[i].log, run[i].clock)[COUNTER]
  {
    RunEffects(run);
    FrozenForever(run, i, j, COUNTER, run[i].clock);
    AtSame(run[i].log, run[j].log, COUNTER, run[i].clock);
    RunInv(run, i);
    RunInv(run, j);
    SerialMemAt(run[i], run[i].clock, COUNTER);
    SerialMemAt(run[j], run[i].clock, COUNTER);
  }

  /** Lines 334-338: the counter starts at what the first worker's transaction stored last. */
  lemma InitSetsCounter(run: seq<State>, i: nat, w: nat, start: int)
    requires IsRun(run) && i < |run| && w in run[i].log && run[i].log[w].ops == [Store(COUNTER, start)]
    requires Quiet(run[i].log, COUNTER, w, run[i].clock)
    ensures SerialMem(run[i].log, run[i].clock)[COUNTER] == start
  {
    RunInv(run, i);
    LoggedIsLegal(run[i], w);
    AtQuiet(run[i].log, COUNTER, w, run[i].clock);
    SerialMemAt(run[i], w, COUNTER);
    SerialMemAt(run[i], run[i].clock, COUNTER);
    var ops := [Store(COUNTER, start)];
    assert RunOps(ops, SerialMem(run[i].log, w - 1)) == RunOps(ops[..0], SerialMem(run[i].log, w - 1))[COUNTER := start];
  }

  /** A read that begins when every worker is done finds what the decreases have left. */
  lemma EndsAtDifference(run: seq<State>, i: nat, k: nat, j: nat, bodies: seq<Body>, t: Tid)
    requires i <= k <= j < |run| && Checking(run, i, j, bodies)
    requires forall u :: 0 <= u < |run[k].txs| ==> run[k].txs[u].pc.Finished?
    requires forall u :: |run[k].txs| <= u < |run[j].txs| ==> !Decided(run[j].txs[u])
    requires |run[i].txs| <= |run[k].txs| <= t < |run[j].txs|
    requires run[j].txs[t].ro && Committed(run[j].txs[t]) && Faithful(run[j], run[j].txs[t])
    ensures |run[j].txs[t].ops| > 0 && run[j].txs[t].ops[0].Read?
    ensures run[j].txs[t].ops[0].val ==
            SerialMem(run[i].log, run[i].clock)[COUNTER] - |Winners(run[j].txs, |run[i].txs|, bodies)|
  {
    var v := run[j].txs[t].rv;
    FetchedValue(run, i, j, bodies, t);
    StartIsFinal(run, i, j, bodies);
    RunCounts(run, i, j, bodies);
    RunInv(run, j);
    CounterAt(run[j], run[i].clock, v, bodies);
    CountIsSize(Winning(run[j].log, bodies), run[i].clock, v);
    forall u | |run[i].txs| <= u < |run[j].txs| && Decided(run[j].txs[u]) ensures run[j].txs[u].wv <= v {
      EndedBefore(run, k, j, u, t);
    }
    WinnersCount(run, i, j, v, bodies);
  }

  // ---- The workers' loops ----

  /** Transaction `t` committed a decrease. */
  predicate Committing(s: State, first: nat, t: Tid) {
    first <= t < |s.txs| && Decided(s.txs[t])
  }

  /** What the loops of lines 354-375 fix: every iteration of every worker commits one decrease, by then
      ended, and that decrease began after a fetch of the same iteration had ended. */
  ghost predicate LoopsDone(run: seq<State>, i: nat, k: nat, j: nat, bodies: seq<Body>, workers: nat, iterations: nat)
    requires i <= k <= j < |run| && |run[j].txs| <= |bodies|
  {
    && (forall t: Tid :: Committing(run[j], |run[i].txs|, t) ==>
          && t < |run[k].txs| && bodies[t].Decrease? && bodies[t].worker < workers && bodies[t].iteration < iterations
          && AfterItsFetch(run, i, j, bodies, t))
    && (forall t: Tid, u: Tid :: Committing(run[j], |run[i].txs|, t) && Committing(run[j], |run[i].txs|, u) && SameJob(bodies, t, u) ==>
          t == u)
    && forall w: nat, n: nat :: w < workers && n < iterations ==> JobDone(run[j], |run[i].txs|, bodies, w, n)
  }

  ghost predicate AfterItsFetch(run: seq<State>, i: nat, j: nat, bodies: seq<Body>, t: Tid)
    requires i <= j < |run| && t < |bodies| && bodies[t].Decrease?
  {
    exists k: nat, f: Tid :: i <= k <= j && FetchedBefore(run, i, k, j, f, t, bodies[t].last)
  }

  predicate SameJob(bodies: seq<Body>, t: Tid, u: Tid) {
    && t < |bodies| && u < |bodies| && bodies[t].Decrease? && bodies[u].Decrease?
    && bodies[t].worker == bodies[u].worker && bodies[t].iteration == bodies[u].iteration
  }

  ghost predicate JobDone(s: State, first: nat, bodies: seq<Body>, w: nat, n: nat)
    requires |s.txs| <= |bodies|
  {
    exists t: Tid :: Committing(s, first, t) && bodies[t].Decrease? && bodies[t].worker == w && bodies[t].iteration == n
  }

  function Jobs(workers: nat, iterations: nat): set<(nat, nat)> {
    set w: nat, n: nat | w < workers && n < iterations :: (w, n)
  }

  function Row(w: nat, iterations: nat): set<(nat, nat)> {
    set n: nat | n < iterations :: (w, n)
  }

  lemma {:induction false} RowSize(w: nat, iterations: nat)
    ensures |Row(w, iterations)| == iterations
  {
    if iterations == 0 {
      assert Row(w, 0) == {};
    } else {
      RowSize(w, iterations - 1);
      assert Row(w, iterations) == Row(w, iterations - 1) + {(w, iterations - 1)};
    }
  }

  lemma {:induction false} JobsSize(workers: nat, iterations: nat)
    ensures |Jobs(workers, iterations)| == workers * iterations
  {
    if workers == 0 {
      assert Jobs(0, iterations) == {};
    } else {
      JobsSize(workers - 1, iterations);
      RowSize(workers - 1, iterations);
      OneMoreRow(workers - 1, iterations);
    }
  }

  lemma OneMoreRow(workers: nat, iterations: nat)
    ensures |Jobs(workers + 1, iterations)| == |Jobs(workers, iterations)| + |Row(workers, iterations)|
  {
    var before, row := Jobs(workers, iterations), Row(workers, iterations);
    assert Jobs(workers + 1, iterations) == before + row;
    assert before !! row;
  }

  /** Every committed decrease of the loops is correct. */
  lemma CommittingIsWinner(run: seq<State>, i: nat, k: nat, j: nat, bodies: seq<Body>, workers: nat, iterations: nat, t: Tid)
    requires i <= k <= j < |run| && Checking(run, i, j, bodies) && LoopsDone(run, i, k, j, bodies, workers, iterations)
    requires forall u :: 0 <= u < |run[k].txs| ==> run[k].txs[u].pc.Finished?
    requires Committing(run[j], |run[i].txs|, t)
    ensures t in Winners(run[j].txs, |run[i].txs|, bodies)
  {
    RunEffects(run);
    EndedIsFinal(run, k, j, t);
    assert AfterItsFetch(run, i, j, bodies, t);
    var h: nat, f: Tid :| i <= h <= j && FetchedBefore(run, i, h, j, f, t, bodies[t].last);
    DecreaseIsCorrect(run, i, h, j, bodies, f, t);
  }

  /** So as many decreases have committed and are correct as there are iterations in all. */
  lemma WinnersAreJobs(run: seq<State>, i: nat, k: nat, j: nat, bodies: seq<Body>, workers: nat, iterations: nat)
    requires i <= k <= j < |run| && Checking(run, i, j, bodies) && LoopsDone(run, i, k, j, bodies, workers, iterations)
    requires forall u :: 0 <= u < |run[k].txs| ==> run[k].txs[u].pc.Finished?
    ensures |Winners(run[j].txs, |run[i].txs|, bodies)| == workers * iterations
  {
    var first := |run[i].txs|;
    var ts, jobs := Winners(run[j].txs, first, bodies), Jobs(workers, iterations);
    var job: map<nat, (nat, nat)> := map t | t in ts :: (bodies[t].worker, bodies[t].iteration);
    forall t | t in ts ensures Committing(run[j], first, t) && job[t] in jobs {}
    var doer: map<(nat, nat), nat> := map p | p in jobs :: DoerOf(run, i, k, j, bodies, workers, iterations, p.0, p.1);
    forall p | p in jobs ensures p in doer && doer[p] in ts && doer[p] in job && job[doer[p]] == p {
      CommittingIsWinner(run, i, k, j, bodies, workers, iterations, doer[p]);
    }
    forall t | t in ts ensures t in job && job[t] in jobs && job[t] in doer && doer[job[t]] == t {
      assert SameJob(bodies, t, doer[job[t]]);
    }
    SameSize(ts, jobs, job, doer);
    JobsSize(workers, iterations);
  }

  ghost function DoerOf(run: seq<State>, i: nat, k: nat, j: nat, bodies: seq<Body>, workers: nat, iterations: nat,
                        w: nat, n: nat): (t: Tid)
    requires i <= k <= j < |run| && |run[j].txs| <= |bodies| && LoopsDone(run, i, k, j, bodies, workers, iterations)
    requires w < workers && n < iterations
    ensures Committing(run[j], |run[i].txs|, t) && bodies[t].Decrease?
    ensures bodies[t].worker == w && bodies[t].iteration == n
  {
    assert JobDone(run[j], |run[i].txs|, bodies, w, n);
    var t: Tid :| Committing(run[j], |run[i].txs|, t) && bodies[t].Decrease? && bodies[t].worker == w && bodies[t].iteration == n;
    t
  }

  /** The last check (lines 379-386): when the counter started at the number of all iterations and the
      workers' loops are done, a read that begins afterwards finds zero. */
  lemma EndsAtZero(run: seq<State>, i: nat, k: nat, j: nat, bodies: seq<Body>, workers: nat, iterations: nat, t: Tid)
    requires i <= k <= j < |run| && Checking(run, i, j, bodies) && LoopsDone(run, i, k, j, bodies, workers, iterations)
    requires SerialMem(run[i].log, run[i].clock)[COUNTER] == workers * iterations
    requires forall u :: 0 <= u < |run[k].txs| ==> run[k].txs[u].pc.Finished?
    requires |run[i].txs| <= |run[k].txs| <= t < |run[j].txs|
    requires run[j].txs[t].ro && Committed(run[j].txs[t]) && Faithful(run[j], run[j].txs[t])
    ensures |run[j].txs[t].ops| > 0 && run[j].txs[t].ops[0].Read? && run[j].txs[t].ops[0].val == 0
  {
    forall u | |run[k].txs| <= u < |run[j].txs| ensures !Decided(run[j].txs[u]) {
      assert !Committing(run[j], |run[i].txs|, u);
    }
    EndsAtDifference(run, i, k, j, bodies, t);
    WinnersAreJobs(run, i, k, j, bodies, workers, iterations);
  }

  lemma EndedBefore(run: seq<State>, k: nat, j: nat, u: Tid, t: Tid)
    requires IsRun(run) && k <= j < |run|
    requires u < |run[k].txs| && run[k].txs[u].pc.Finished? && |run[k].txs| <= t < |run[j].txs|
    ensures u < |run[j].txs| && run[j].txs[u].wv <= run[j].txs[t].rv
  {
    RunEffects(run);
    EndedIsFinal(run, k, j, u);
    BegunLater(run, k, j, t);
    RunInv(run, k);
    assert TxInv(run[k], u);
  }
}
