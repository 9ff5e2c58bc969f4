/** The master/worker protocol of grading/grading.cpp: class Sync (lines 41-139) with its latch, and the
    rounds in which `measure` drives it (lines 157-241).  Any number of workers and rounds, no timeouts
    and no worker exceptions; each access to an atomic or to the latch is one step. */
module RoundSync {
  import opened Options
  import opened Counting
  import opened Patience

  datatype Status = Wait | Run | Abort | Done | Fail | Quit

  /** Where a worker stands; the comments cite grading/grading.cpp. */
  datatype Pc =
    | Poll                 // 104: load the status
    | Ready                // 111: fetch_add nbready
    | ResetRun             // 113
    | SetRun               // 114
    | AwaitRun             // 117: load the status
    | Working              // 166-176: run the workload
    | StoreErr             // 128
    | SetAbort             // 129
    | Notify               // 131: fetch_add nbready
    | ResetDone            // 133
    | LoadStatus           // 134: load
    | StoreDone(fail: bool) // 134: store
    | Raise                // 136: raise the latch
    | Returned             // 165, 170, 175, 179
    | Unreachable          // 180

  /** `round` counts the calls of worker_notify that have returned; `ran` is a history variable: the
      rounds of the master during which this worker ran its workload. */
  datatype Worker = Worker(pc: Pc, round: nat, ran: seq<nat>)

  datatype Master =
    | Start(i: nat)                          // 208, 218, 229: master_notify for round i
    | Waiting(i: nat)                        // 87: wait for the latch
    | Checking(i: nat)                       // 90: load the status
    | Join(i: nat, error: Option<nat>)       // 238: master_join after i rounds
    | Joining(i: nat, error: Option<nat>, j: nat)  // 240: join thread j
    | Finished(i: nat, error: Option<nat>)
    | Unexpected                             // 96

  /** An error message is modelled by the worker it came from.  `failed` is a history variable: the
      workers whose workload reported an error in the current round. */
  datatype State = State(rounds: nat, status: Status, nbready: int, errmsg: Option<nat>, raised: bool,
                         master: Master, workers: seq<Worker>, failed: set<nat>)

  function Initial(nbworkers: nat, rounds: nat): State {
    State(rounds, Done, 0, None, false, Start(0), seq(nbworkers, i => Worker(Poll, 0, [])), {})
  }

  /** `error` says whether the workload a worker is running reports an error. */
  datatype Action = MasterStep | WorkerStep(t: nat, error: bool)

  predicate Enabled(s: State, a: Action) {
    match a
    case MasterStep => !s.master.Finished? && !s.master.Unexpected?
    case WorkerStep(t, _) => t < |s.workers| && !s.workers[t].pc.Returned? && !s.workers[t].pc.Unreachable?
  }

  function Do(s: State, a: Action): State
    requires Enabled(s, a)
  {
    match a
    case MasterStep => DoMaster(s)
    case WorkerStep(t, error) => DoWorker(s, t, error)
  }

  function DoMaster(s: State): State {
    match s.master
    case Start(i) => s.(status := Wait, failed := {}, master := Waiting(i))
    case Waiting(i) => if s.raised then s.(raised := false, master := Checking(i)) else s
    case Checking(i) =>
      if s.status.Done? then s.(master := if i + 1 < s.rounds then Start(i + 1) else Join(i + 1, None))
      else if s.status.Fail? then s.(master := Join(i + 1, s.errmsg))
      else s.(master := Unexpected)
    case Join(i, e) => s.(status := Quit, master := Joining(i, e, 0))
    case Joining(i, e, j) =>
      if j >= |s.workers| then s.(master := Finished(i, e))
      else if s.workers[j].pc.Returned? then s.(master := Joining(i, e, j + 1))
      else s
    case Finished(_, _) => s
    case Unexpected => s
  }

  function Put(s: State, t: nat, x: Worker): State
    requires t < |s.workers|
  {
    s.(workers := s.workers[t := x])
  }

  /** The master's round, for the history of a worker. */
  function MasterRound(s: State): nat {
    if s.master.Waiting? then s.master.i else s.rounds
  }

  function DoWorker(s: State, t: nat, error: bool): State
    requires t < |s.workers|
  {
    var x := s.workers[t];
    match x.pc
    case Poll =>
      if s.status.Wait? then Put(s, t, x.(pc := Ready))
      else if s.status.Quit? then Put(s, t, x.(pc := Returned))
      else s
    case Ready =>
      Put(s, t, x.(pc := if s.nbready + 1 == |s.workers| then ResetRun else AwaitRun)).(nbready := s.nbready + 1)
    case ResetRun => Put(s, t, x.(pc := SetRun)).(nbready := 0)
    case SetRun => Put(s, t, x.(pc := Working)).(status := Run)
    case AwaitRun => if s.status.Run? || s.status.Abort? then Put(s, t, x.(pc := Working)) else s
    case Working =>
      if x.round >= s.rounds then Put(s, t, x.(pc := Unreachable))
      else
        var y := x.(ran := x.ran + [MasterRound(s)]);
        if error then Put(s, t, y.(pc := StoreErr)).(failed := s.failed + {t}) else Put(s, t, y.(pc := Notify))
    case StoreErr => Put(s, t, x.(pc := SetAbort)).(errmsg := Some(t))
    case SetAbort => Put(s, t, x.(pc := Notify)).(status := Abort)
    case Notify =>
      if s.nbready + 1 == |s.workers| then Put(s, t, x.(pc := ResetDone)).(nbready := s.nbready + 1)
      else Put(s, t, x.(pc := Poll, round := x.round + 1)).(nbready := s.nbready + 1)
    case ResetDone => Put(s, t, x.(pc := LoadStatus)).(nbready := 0)
    case LoadStatus => Put(s, t, x.(pc := StoreDone(s.status.Abort?)))
    case StoreDone(fail) => Put(s, t, x.(pc := Raise)).(status := if fail then Fail else Done)
    case Raise => Put(s, t, x.(pc := Poll, round := x.round + 1)).(raised := true)
    case Returned => s
    case Unreachable => s
  }

  ghost predicate Next(s: State, s': State) {
    exists a :: Enabled(s, a) && s' == Do(s, a)
  }

  ghost predicate StepAt(run: seq<State>, i: nat)
    requires i + 1 < |run|
  {
    Next(run[i], run[i + 1])
  }

  ghost predicate IsRun(run: seq<State>, nbworkers: nat, rounds: nat) {
    && |run| > 0 && nbworkers > 0 && rounds > 0
    && run[0] == Initial(nbworkers, rounds)
    && forall i {:trigger StepAt(run, i)} :: 0 <= i < |run| - 1 ==> StepAt(run, i)
  }

  // ---- Invariant ----

  /** 0, 1, ..., n - 1. */
  function Upto(n: nat): seq<nat> {
    seq(n, k => k)
  }

  /** Counted in nbready while the workers gather. */
  predicate Gathered(x: Worker) {
    x.pc.AwaitRun? || x.pc.ResetRun? || x.pc.SetRun?
  }

  predicate Starter(x: Worker) {
    x.pc.ResetRun? || x.pc.SetRun?
  }

  /** Counted in nbready while the workers run. */
  predicate Arrived(x: Worker) {
    x.pc.Poll? || Closer(x)
  }

  predicate Closer(x: Worker) {
    x.pc.ResetDone? || Closing(x)
  }

  predicate Closing(x: Worker) {
    x.pc.LoadStatus? || x.pc.StoreDone?
  }

  predicate Raising(x: Worker) {
    x.pc.Raise?
  }

  predicate GatherFits(i: nat, x: Worker) {
    && (x.pc.Poll? || x.pc.Ready? || Gathered(x))
    && x.round == i && x.ran == Upto(i)
  }

  predicate RunFits(i: nat, x: Worker) {
    if x.pc.AwaitRun? || x.pc.Working? then x.round == i && x.ran == Upto(i)
    else if x.pc.Poll? then x.round == i + 1 && x.ran == Upto(i + 1)
    else
      && (x.pc.StoreErr? || x.pc.SetAbort? || x.pc.Notify? || Closer(x))
      && x.round == i && x.ran == Upto(i + 1)
  }

  /** Ready for round `i`, and nothing left to do before it. */
  predicate Parked(i: nat, x: Worker) {
    x.pc.Poll? && x.round == i && x.ran == Upto(i)
  }

  ghost predicate Gathering(s: State) {
    && s.master.Waiting? && s.master.i < s.rounds && !s.raised && s.failed == {} && s.errmsg == None
    && (forall t :: 0 <= t < |s.workers| ==> GatherFits(s.master.i, s.workers[t]))
    && Count(s.workers, Starter) == (if Count(s.workers, Gathered) == |s.workers| then 1 else 0)
    && (Count(s.workers, Gathered) < |s.workers| ==> s.nbready == Count(s.workers, Gathered))
    && (forall t :: 0 <= t < |s.workers| && s.workers[t].pc.SetRun? ==> s.nbready == 0)
  }

  /** A worker that reported an error has run its workload, and has set the status unless it is about to. */
  ghost predicate FailedFits(s: State, t: nat)
    requires t < |s.workers|
  {
    var x := s.workers[t];
    && (t in s.failed ==> !x.pc.AwaitRun? && !x.pc.Working?)
    && (x.pc.StoreErr? || x.pc.SetAbort? ==> t in s.failed)
    && (t in s.failed && !x.pc.StoreErr? ==> s.errmsg.Some?)
    && (t in s.failed && !x.pc.StoreErr? && !x.pc.SetAbort? ==> s.status.Abort?)
    && (x.pc.StoreDone? ==> (x.pc.fail <==> s.failed != {}))
  }

  ghost predicate Running(s: State) {
    && s.master.Waiting? && s.master.i < s.rounds && !s.raised
    && (forall t :: 0 <= t < |s.workers| ==> RunFits(s.master.i, s.workers[t]))
    && (forall t :: 0 <= t < |s.workers| ==> FailedFits(s, t))
    && (forall t :: t in s.failed ==> t < |s.workers|)
    && (s.errmsg.Some? ==> s.errmsg.value in s.failed)
    && (s.status.Abort? ==> s.failed != {})
    && Count(s.workers, Closer) == (if Count(s.workers, Arrived) == |s.workers| then 1 else 0)
    && (Count(s.workers, Arrived) < |s.workers| ==> s.nbready == Count(s.workers, Arrived))
    && (forall t :: 0 <= t < |s.workers| && Closing(s.workers[t]) ==> s.nbready == 0)
  }

  predicate Outcome(s: State) {
    && (forall t :: t in s.failed ==> t < |s.workers|)
    && (s.errmsg.Some? <==> s.failed != {})
    && (s.errmsg.Some? ==> s.errmsg.value in s.failed)
  }

  ghost predicate Closed(s: State) {
    && s.nbready == 0 && Outcome(s) && (s.status.Fail? <==> s.failed != {})
    && match s.master
       case Start(i) =>
         i < s.rounds && !s.raised && s.failed == {} && forall t :: 0 <= t < |s.workers| ==> Parked(i, s.workers[t])
       case Waiting(i) =>
         && i < s.rounds
         && Count(s.workers, Raising) == (if s.raised then 0 else 1)
         && forall t :: 0 <= t < |s.workers| ==>
              Parked(i + 1, s.workers[t]) || s.workers[t] == Worker(Raise, i, Upto(i + 1))
       case Checking(i) => i < s.rounds && !s.raised && forall t :: 0 <= t < |s.workers| ==> Parked(i + 1, s.workers[t])
       case Join(i, e) =>
         && i <= s.rounds && (e == None ==> i == s.rounds) && e == s.errmsg
         && forall t :: 0 <= t < |s.workers| ==> Parked(i, s.workers[t])
       case _ => false
  }

  ghost predicate Quitting(s: State) {
    && Outcome(s)
    && (s.master.Joining? || s.master.Finished?)
    && s.master.i <= s.rounds && (s.master.error == None ==> s.master.i == s.rounds) && s.master.error == s.errmsg
    && (s.master.Joining? ==> s.master.j <= |s.workers|)
    && (forall t :: 0 <= t < |s.workers| ==>
          && s.workers[t].round == s.master.i && s.workers[t].ran == Upto(s.master.i)
          && (s.workers[t].pc.Poll? || s.workers[t].pc.Returned?))
    && forall t :: 0 <= t < |s.workers| && (s.master.Joining? ==> t < s.master.j) ==> s.workers[t].pc.Returned?
  }

  ghost predicate Inv(s: State) {
    && |s.workers| > 0
    && match s.status
       case Wait => Gathering(s)
       case Run => Running(s)
       case Abort => Running(s)
       case Done => Closed(s)
       case Fail => Closed(s)
       case Quit => Quitting(s)
  }

  lemma InitialInv(nbworkers: nat, rounds: nat)
    requires nbworkers > 0 && rounds > 0
    ensures Inv(Initial(nbworkers, rounds))
  {
  }

  // ---- Every step keeps it ----

  /** The count after worker `t` has moved to `x`. */
  lemma Recount(xs: seq<Worker>, t: nat, x: Worker, f: Worker -> bool)
    requires t < |xs|
    ensures Count(xs[t := x], f) == Count(xs, f) - (if f(xs[t]) then 1 else 0) + if f(x) then 1 else 0
    ensures f(xs[t]) ==> Count(xs, f) > 0
    ensures !f(xs[t]) ==> Count(xs, f) < |xs|
  {
    CountUpdate(xs, t, x, f);
    CountBounds(xs, f);
  }

  /** While a worker is about to switch to running, all others have gathered and wait. */
  lemma StarterIsAlone(s: State, t: nat, u: nat)
    requires Gathering(s) && t < |s.workers| && u < |s.workers| && t != u && Starter(s.workers[t])
    ensures s.workers[u].pc.AwaitRun?
  {
    CountBounds(s.workers, Starter);
    CountBounds(s.workers, Gathered);
    if Starter(s.workers[u]) { CountTwo(s.workers, t, u, Starter); }
  }

  lemma GatherStep(s: State, t: nat, error: bool)
    requires |s.workers| > 0 && s.status.Wait? && Gathering(s) && t < |s.workers| && !s.workers[t].pc.SetRun?
    ensures !s.workers[t].pc.Unreachable?
    ensures Gathering(DoWorker(s, t, error)) && DoWorker(s, t, error).status.Wait?
  {
    assert GatherFits(s.master.i, s.workers[t]);
    if s.workers[t].pc.ResetRun? { ResetRunStep(s, t, error); } else { ArriveStep(s, t, error); }
  }

  lemma ArriveStep(s: State, t: nat, error: bool)
    requires |s.workers| > 0 && s.status.Wait? && Gathering(s) && t < |s.workers|
    requires s.workers[t].pc.Poll? || s.workers[t].pc.Ready? || s.workers[t].pc.AwaitRun?
    ensures Gathering(DoWorker(s, t, error)) && DoWorker(s, t, error).status.Wait?
  {
    var s' := DoWorker(s, t, error);
    Recount(s.workers, t, s'.workers[t], Gathered);
    Recount(s.workers, t, s'.workers[t], Starter);
    if s.workers[t].pc.Ready? {
      forall u | 0 <= u < |s.workers| ensures !s.workers[u].pc.SetRun? { CountBounds(s.workers, Starter); }
    }
  }

  lemma ResetRunStep(s: State, t: nat, error: bool)
    requires |s.workers| > 0 && s.status.Wait? && Gathering(s) && t < |s.workers| && s.workers[t].pc.ResetRun?
    ensures Gathering(DoWorker(s, t, error)) && DoWorker(s, t, error).status.Wait?
  {
    var s' := DoWorker(s, t, error);
    CountUpdate(s.workers, t, s'.workers[t], Gathered);
    CountUpdate(s.workers, t, s'.workers[t], Starter);
    forall u | 0 <= u < |s.workers| && u != t ensures s.workers[u].pc.AwaitRun? { StarterIsAlone(s, t, u); }
    CountBounds(s.workers, Gathered);
  }

  lemma StartStep(s: State, t: nat, error: bool)
    requires |s.workers| > 0 && s.status.Wait? && Gathering(s) && t < |s.workers| && s.workers[t].pc.SetRun?
    ensures Running(DoWorker(s, t, error)) && DoWorker(s, t, error).status.Run?
  {
    var s' := DoWorker(s, t, error);
    forall u | 0 <= u < |s.workers| && u != t ensures s.workers[u].pc.AwaitRun? { StarterIsAlone(s, t, u); }
    CountBounds(s'.workers, Arrived);
    CountBounds(s'.workers, Closer);
  }

  /** While a worker is about to close the round, all others have arrived and poll. */
  lemma CloserIsAlone(s: State, t: nat, u: nat)
    requires Running(s) && t < |s.workers| && u < |s.workers| && t != u && Closer(s.workers[t])
    ensures s.workers[u].pc.Poll?
  {
    CountBounds(s.workers, Closer);
    CountBounds(s.workers, Arrived);
    if Closer(s.workers[u]) { CountTwo(s.workers, t, u, Closer); }
  }

  predicate InRun(s: State) {
    s.status.Run? || s.status.Abort?
  }

  lemma RunStep(s: State, t: nat, error: bool)
    requires |s.workers| > 0 && InRun(s) && Running(s) && t < |s.workers| && !s.workers[t].pc.StoreDone?
    ensures !s.workers[t].pc.Unreachable?
    ensures Running(DoWorker(s, t, error)) && InRun(DoWorker(s, t, error))
  {
    var pc := s.workers[t].pc;
    assert RunFits(s.master.i, s.workers[t]);
    if pc.AwaitRun? || pc.Working? || pc.StoreErr? || pc.SetAbort? {
      WorkStep(s, t, error);
    } else if pc.Notify? {
      NotifyStep(s, t, error);
    } else if pc.ResetDone? || pc.LoadStatus? {
      LastStep(s, t, error);
    }
  }

  lemma WorkStep(s: State, t: nat, error: bool)
    requires |s.workers| > 0 && InRun(s) && Running(s) && t < |s.workers|
    requires s.workers[t].pc.AwaitRun? || s.workers[t].pc.Working? || s.workers[t].pc.StoreErr? || s.workers[t].pc.SetAbort?
    ensures Running(DoWorker(s, t, error)) && InRun(DoWorker(s, t, error))
  {
    NobodyCloses(s, t);
    WorkFits(s, t, error);
    Worked(s, DoWorker(s, t, error), t);
  }

  /** A worker that has yet to arrive has moved on. */
  lemma Worked(s: State, s': State, t: nat)
    requires Running(s) && t < |s.workers| && !Arrived(s.workers[t])
    requires s'.workers == s.workers[t := if t < |s'.workers| then s'.workers[t] else s.workers[t]]
    requires !Arrived(s'.workers[t]) && RunFits(s.master.i, s'.workers[t])
    requires s'.nbready == s.nbready && s'.master == s.master && s'.raised == s.raised && s'.rounds == s.rounds
    requires s'.failed <= s.failed + {t} && forall u :: 0 <= u < |s.workers| ==> FailedFits(s', u)
    requires s'.errmsg.Some? ==> s'.errmsg.value in s'.failed
    requires s'.status.Abort? ==> s'.failed != {}
    ensures Running(s')
  {
    NobodyCloses(s, t);
    CountUpdate(s.workers, t, s'.workers[t], Arrived);
    CountUpdate(s.workers, t, s'.workers[t], Closer);
  }

  lemma WorkFits(s: State, t: nat, error: bool)
    requires Running(s) && InRun(s) && t < |s.workers|
    requires s.workers[t].pc.AwaitRun? || s.workers[t].pc.Working? || s.workers[t].pc.StoreErr? || s.workers[t].pc.SetAbort?
    requires forall u :: 0 <= u < |s.workers| ==> !Closer(s.workers[u])
    ensures var s' := DoWorker(s, t, error);
            && RunFits(s.master.i, s'.workers[t])
            && (forall u :: 0 <= u < |s.workers| ==> FailedFits(s', u))
            && (s'.errmsg.Some? ==> s'.errmsg.value in s'.failed)
            && (s'.status.Abort? ==> s'.failed != {})
  {
    var s' := DoWorker(s, t, error);
    assert RunFits(s.master.i, s.workers[t]) && FailedFits(s, t);
    assert Upto(s.master.i) + [s.master.i] == Upto(s.master.i + 1);
    forall u | 0 <= u < |s'.workers| ensures FailedFits(s', u) { assert FailedFits(s, u); }
  }

  /** While one worker has yet to arrive, no worker closes the round. */
  lemma NobodyCloses(s: State, t: nat)
    requires Running(s) && t < |s.workers| && !Arrived(s.workers[t])
    ensures forall u :: 0 <= u < |s.workers| ==> !Closer(s.workers[u])
    ensures s.nbready == Count(s.workers, Arrived) < |s.workers|
  {
    CountBounds(s.workers, Arrived);
    CountBounds(s.workers, Closer);
  }

  lemma NotifyStep(s: State, t: nat, error: bool)
    requires |s.workers| > 0 && InRun(s) && Running(s) && t < |s.workers| && s.workers[t].pc.Notify?
    ensures Running(DoWorker(s, t, error)) && InRun(DoWorker(s, t, error))
  {
    var s' := DoWorker(s, t, error);
    assert RunFits(s.master.i, s.workers[t]);
    NobodyCloses(s, t);
    CountUpdate(s.workers, t, s'.workers[t], Arrived);
    CountUpdate(s.workers, t, s'.workers[t], Closer);
    forall u | 0 <= u < |s'.workers| ensures FailedFits(s', u) { assert FailedFits(s, u); }
  }

  lemma LastStep(s: State, t: nat, error: bool)
    requires |s.workers| > 0 && InRun(s) && Running(s) && t < |s.workers|
    requires s.workers[t].pc.ResetDone? || s.workers[t].pc.LoadStatus?
    ensures Running(DoWorker(s, t, error)) && InRun(DoWorker(s, t, error))
  {
    var s' := DoWorker(s, t, error);
    assert RunFits(s.master.i, s.workers[t]);
    CountUpdate(s.workers, t, s'.workers[t], Arrived);
    CountUpdate(s.workers, t, s'.workers[t], Closer);
    CountBounds(s.workers, Closer);
    forall u | 0 <= u < |s.workers| && u != t ensures s.workers[u].pc.Poll? { CloserIsAlone(s, t, u); }
    StatusTells(s, t);
    forall u | 0 <= u < |s'.workers| ensures FailedFits(s', u) { assert FailedFits(s, u); }
  }

  /** Once all have arrived the status is Abort exactly when some worker has failed. */
  lemma StatusTells(s: State, t: nat)
    requires Running(s) && t < |s.workers| && Closer(s.workers[t])
    requires forall u :: 0 <= u < |s.workers| && u != t ==> s.workers[u].pc.Poll?
    ensures s.status.Abort? <==> s.failed != {}
    ensures s.failed != {} ==> s.errmsg.Some?
  {
    if s.failed != {} {
      var u :| u in s.failed;
      assert FailedFits(s, u);
    }
  }

  lemma CloseStep(s: State, t: nat, error: bool)
    requires |s.workers| > 0 && InRun(s) && Running(s) && t < |s.workers| && s.workers[t].pc.StoreDone?
    ensures Closed(DoWorker(s, t, error)) && (DoWorker(s, t, error).status.Done? || DoWorker(s, t, error).status.Fail?)
  {
    var s' := DoWorker(s, t, error);
    assert FailedFits(s, t) && RunFits(s.master.i, s.workers[t]);
    forall u | 0 <= u < |s.workers| && u != t ensures s.workers[u].pc.Poll? && RunFits(s.master.i, s.workers[u]) {
      CloserIsAlone(s, t, u);
    }
    StatusTells(s, t);
    RaisingOnce(s', t);
  }

  lemma RaisingOnce(s: State, t: nat)
    requires t < |s.workers| && Raising(s.workers[t])
    requires forall u :: 0 <= u < |s.workers| && u != t ==> !Raising(s.workers[u])
    ensures Count(s.workers, Raising) == 1
  {
    var ws := s.workers[t := s.workers[t].(pc := Poll)];
    CountBounds(ws, Raising);
    CountUpdate(ws, t, s.workers[t], Raising);
    assert ws[t := s.workers[t]] == s.workers;
  }

  lemma ClosedStep(s: State, t: nat, error: bool)
    requires |s.workers| > 0 && (s.status.Done? || s.status.Fail?) && Closed(s) && t < |s.workers|
    ensures !s.workers[t].pc.Unreachable? && !DoWorker(s, t, error).workers[t].pc.Unreachable?
    ensures Closed(DoWorker(s, t, error)) && DoWorker(s, t, error).status == s.status
  {
    var s' := DoWorker(s, t, error);
    Recount(s.workers, t, s'.workers[t], Raising);
    if s.workers[t].pc.Raise? && s.raised { CountBounds(s.workers, Raising); }
  }

  lemma WorkerInv(s: State, t: nat, error: bool)
    requires Inv(s) && t < |s.workers|
    ensures Inv(DoWorker(s, t, error))
    ensures !s.workers[t].pc.Unreachable?
  {
    match s.status
    case Wait => if s.workers[t].pc.SetRun? { StartStep(s, t, error); } else { GatherStep(s, t, error); }
    case Run => if s.workers[t].pc.StoreDone? { CloseStep(s, t, error); } else { RunStep(s, t, error); }
    case Abort => if s.workers[t].pc.StoreDone? { CloseStep(s, t, error); } else { RunStep(s, t, error); }
    case Done => ClosedStep(s, t, error);
    case Fail => ClosedStep(s, t, error);
    case Quit =>
  }

  lemma MasterInv(s: State)
    requires Inv(s)
    ensures Inv(DoMaster(s)) && !s.master.Unexpected?
  {
    match s.master
    case Start(_) => MasterStarts(s);
    case Waiting(_) => MasterWakes(s);
    case Checking(_) => MasterChecks(s);
    case Join(_, _) =>
    case Joining(_, _, _) =>
    case Finished(_, _) =>
  }

  lemma MasterStarts(s: State)
    requires Inv(s) && s.master.Start?
    ensures Gathering(DoMaster(s))
  {
    CountBounds(s.workers, Gathered);
    CountBounds(s.workers, Starter);
  }

  lemma MasterWakes(s: State)
    requires Inv(s) && s.master.Waiting?
    ensures Inv(DoMaster(s))
  {
    CountBounds(s.workers, Raising);
  }

  lemma MasterChecks(s: State)
    requires Inv(s) && s.master.Checking?
    ensures Closed(DoMaster(s)) && DoMaster(s).status == s.status && (s.status.Done? || s.status.Fail?)
  {
  }

  lemma DoFrame(s: State, a: Action)
    requires Enabled(s, a)
    ensures |Do(s, a).workers| == |s.workers| && Do(s, a).rounds == s.rounds
  {
  }

  lemma DoInv(s: State, a: Action)
    requires Inv(s) && Enabled(s, a)
    ensures Inv(Do(s, a))
  {
    match a
    case MasterStep => MasterInv(s);
    case WorkerStep(t, error) => WorkerInv(s, t, error);
  }

  lemma {:induction false} RunInv(run: seq<State>, nbworkers: nat, rounds: nat, i: nat)
    requires IsRun(run, nbworkers, rounds) && i < |run|
    ensures Inv(run[i]) && |run[i].workers| == nbworkers && run[i].rounds == rounds
  {
    if i == 0 {
      InitialInv(nbworkers, rounds);
    } else {
      RunInv(run, nbworkers, rounds, i - 1);
      assert StepAt(run, i - 1);
      var a :| Enabled(run[i - 1], a) && run[i] == Do(run[i - 1], a);
      DoFrame(run[i - 1], a);
      DoInv(run[i - 1], a);
    }
  }

  // ---- What the protocol promises ----

  /** The master wakes only in Done or Fail, in Fail exactly when some worker reported an error in this
      round, and then with the message of such a worker; and every worker has run its workload exactly
      once in each round so far. */
  lemma MasterWakesInDoneOrFail(run: seq<State>, nbworkers: nat, rounds: nat, i: nat)
    requires IsRun(run, nbworkers, rounds) && i < |run| && run[i].master.Checking?
    ensures var s := run[i];
            && (s.status.Done? || s.status.Fail?)
            && (s.status.Fail? <==> s.failed != {})
            && (s.status.Fail? ==> s.errmsg.Some? && s.errmsg.value in s.failed)
            && forall t :: 0 <= t < |s.workers| ==> s.workers[t].round == s.master.i + 1 && s.workers[t].ran == Upto(s.master.i + 1)
  {
    RunInv(run, nbworkers, rounds, i);
  }

  /** Neither unreachable branch is reached. */
  lemma NothingUnexpected(run: seq<State>, nbworkers: nat, rounds: nat, i: nat, t: nat)
    requires IsRun(run, nbworkers, rounds) && i < |run| && t < nbworkers
    ensures !run[i].master.Unexpected? && |run[i].workers| == nbworkers && !run[i].workers[t].pc.Unreachable?
  {
    RunInv(run, nbworkers, rounds, i);
    MasterInv(run[i]);
    WorkerInv(run[i], t, false);
  }

  /** At any time a worker has run its workload once in each of the first rounds, in order, and it runs
      only while the master waits for that very round. */
  lemma NoRoundMissedOrRepeated(run: seq<State>, nbworkers: nat, rounds: nat, i: nat, t: nat)
    requires IsRun(run, nbworkers, rounds) && i < |run| && t < nbworkers
    ensures |run[i].workers| == nbworkers
    ensures run[i].workers[t].ran == Upto(|run[i].workers[t].ran|) && |run[i].workers[t].ran| <= rounds
    ensures run[i].workers[t].pc.Working? ==>
              run[i].master == Waiting(run[i].workers[t].round) && |run[i].workers[t].ran| == run[i].workers[t].round
  {
    RunInv(run, nbworkers, rounds, i);
    var s := run[i];
    if InRun(s) { assert RunFits(s.master.i, s.workers[t]); }
    if s.status.Wait? { assert GatherFits(s.master.i, s.workers[t]); }
  }

  /** When the master is done every worker has returned; with no error, after all rounds. */
  lemma FinishedMeansReturned(run: seq<State>, nbworkers: nat, rounds: nat, i: nat, t: nat)
    requires IsRun(run, nbworkers, rounds) && i < |run| && run[i].master.Finished? && t < nbworkers
    ensures |run[i].workers| == nbworkers && run[i].workers[t].pc.Returned?
    ensures run[i].master.error == None <==> run[i].failed == {}
    ensures run[i].master.i <= rounds && run[i].workers[t].ran == Upto(run[i].master.i)
    ensures run[i].master.error == None ==> run[i].workers[t].ran == Upto(rounds)
    ensures run[i].master.error.Some? ==> run[i].master.error.value in run[i].failed
  {
    RunInv(run, nbworkers, rounds, i);
  }

  // ---- Progress ----

  /** A step that is not a turn of a spin or wait loop. */
  predicate Moves(s: State, a: Action) {
    Enabled(s, a) && Do(s, a) != s
  }

  /** Until the master has joined all workers, someone can move. */
  lemma SomeoneMoves(s: State) returns (a: Action)
    requires Inv(s) && !s.master.Finished?
    ensures Moves(s, a)
  {
    match s.status
    case Wait => a := GatheringMoves(s);
    case Run => a := RunningMoves(s);
    case Abort => a := RunningMoves(s);
    case Done => a := ClosedMoves(s);
    case Fail => a := ClosedMoves(s);
    case Quit =>
      a := MasterStep;
      if s.master.j < |s.workers| && !s.workers[s.master.j].pc.Returned? { a := WorkerStep(s.master.j, false); }
  }

  lemma GatheringMoves(s: State) returns (a: Action)
    requires |s.workers| > 0 && s.status.Wait? && Gathering(s)
    ensures Moves(s, a)
  {
    CountBounds(s.workers, Gathered);
    CountBounds(s.workers, Starter);
    var t: nat;
    if forall u :: 0 <= u < |s.workers| ==> Gathered(s.workers[u]) {
      t :| t < |s.workers| && Starter(s.workers[t]);
    } else {
      t :| t < |s.workers| && !Gathered(s.workers[t]);
    }
    assert GatherFits(s.master.i, s.workers[t]);
    a := WorkerStep(t, false);
  }

  lemma RunningMoves(s: State) returns (a: Action)
    requires |s.workers| > 0 && InRun(s) && Running(s)
    ensures Moves(s, a)
  {
    CountBounds(s.workers, Arrived);
    CountBounds(s.workers, Closer);
    var t: nat;
    if forall u :: 0 <= u < |s.workers| ==> Arrived(s.workers[u]) {
      t :| t < |s.workers| && Closer(s.workers[t]);
    } else {
      t :| t < |s.workers| && !Arrived(s.workers[t]);
    }
    assert RunFits(s.master.i, s.workers[t]);
    a := WorkerStep(t, false);
  }

  lemma ClosedMoves(s: State) returns (a: Action)
    requires |s.workers| > 0 && (s.status.Done? || s.status.Fail?) && Closed(s)
    ensures Moves(s, a)
  {
    a := MasterStep;
    if s.master.Waiting? && !s.raised {
      CountBounds(s.workers, Raising);
      var t: nat :| t < |s.workers| && Raising(s.workers[t]);
      a := WorkerStep(t, false);
    }
  }

  /** How far a worker has come: every move takes it further. */
  function WorkerRank(x: Worker): int {
    13 * x.round +
    match x.pc
    case Poll => 0
    case Ready => 1
    case ResetRun => 2
    case AwaitRun => 2
    case SetRun => 3
    case Working => 4
    case StoreErr => 5
    case SetAbort => 6
    case Notify => 7
    case ResetDone => 8
    case LoadStatus => 9
    case StoreDone(_) => 10
    case Raise => 11
    case Returned => 1
    case Unreachable => 12
  }

  function MasterRank(s: State): int {
    match s.master
    case Start(i) => 3 * i
    case Waiting(i) => 3 * i + 1
    case Checking(i) => 3 * i + 2
    case Join(i, _) => 3 * s.rounds
    case Joining(_, _, j) => 3 * s.rounds + 1 + j
    case Finished(_, _) => 3 * s.rounds + 2 + |s.workers|
    case Unexpected => 0
  }

  function Rank(s: State): int {
    MasterRank(s) + Total(s.workers, WorkerRank)
  }

  lemma MoveAdvances(s: State, a: Action)
    requires Inv(s) && Enabled(s, a)
    ensures Rank(Do(s, a)) >= Rank(s) + if Moves(s, a) then 1 else 0
  {
    match a
    case MasterStep => MasterAdvances(s);
    case WorkerStep(t, error) =>
      WorkerInv(s, t, error);
      WorkerAdvances(s, t, error);
      TotalUpdate(s.workers, t, Do(s, a).workers[t], WorkerRank);
  }

  lemma WorkerAdvances(s: State, t: nat, error: bool)
    requires t < |s.workers|
    ensures var s' := DoWorker(s, t, error);
            && s'.workers == s.workers[t := s'.workers[t]] && MasterRank(s') == MasterRank(s)
            && (s' != s ==> WorkerRank(s'.workers[t]) >= WorkerRank(s.workers[t]) + 1)
  {
    if Early(s.workers[t].pc) { EarlyAdvances(s, t, error); } else { LateAdvances(s, t, error); }
  }

  predicate Early(pc: Pc) {
    pc.Poll? || pc.Ready? || pc.ResetRun? || pc.SetRun? || pc.AwaitRun? || pc.Working?
  }

  lemma EarlyAdvances(s: State, t: nat, error: bool)
    requires t < |s.workers| && Early(s.workers[t].pc)
    ensures var s' := DoWorker(s, t, error);
            && s'.workers == s.workers[t := s'.workers[t]] && s'.master == s.master && s'.rounds == s.rounds
            && (s' != s ==> WorkerRank(s'.workers[t]) >= WorkerRank(s.workers[t]) + 1)
  {
  }

  lemma LateAdvances(s: State, t: nat, error: bool)
    requires t < |s.workers| && !Early(s.workers[t].pc)
    ensures var s' := DoWorker(s, t, error);
            && s'.workers == s.workers[t := s'.workers[t]] && s'.master == s.master && s'.rounds == s.rounds
            && (s' != s ==> WorkerRank(s'.workers[t]) >= WorkerRank(s.workers[t]) + 1)
  {
  }

  lemma MasterAdvances(s: State)
    requires Inv(s)
    ensures DoMaster(s).workers == s.workers
    ensures DoMaster(s) != s ==> MasterRank(DoMaster(s)) >= MasterRank(s) + 1
  {
    MasterInv(s);
  }

  /** How many of the first `i` steps of a run were moves. */
  ghost function MovesIn(run: seq<State>, i: nat): nat
    requires i < |run|
  {
    if i == 0 then 0 else MovesIn(run, i - 1) + if run[i] != run[i - 1] then 1 else 0
  }

  lemma {:induction false} MovesInRank(run: seq<State>, nbworkers: nat, rounds: nat, i: nat)
    requires IsRun(run, nbworkers, rounds) && i < |run|
    ensures MovesIn(run, i) <= Rank(run[i])
  {
    if i == 0 {
      TotalBound(run[0].workers, WorkerRank, 0);
    } else {
      MovesInRank(run, nbworkers, rounds, i - 1);
      RunInv(run, nbworkers, rounds, i - 1);
      assert StepAt(run, i - 1);
      var a :| Enabled(run[i - 1], a) && run[i] == Do(run[i - 1], a);
      MoveAdvances(run[i - 1], a);
    }
  }

  function MostMoves(nbworkers: nat, rounds: nat): int {
    3 * rounds + 2 + nbworkers + nbworkers * (13 * rounds + 1)
  }

  lemma RankBound(s: State)
    requires Inv(s)
    ensures Rank(s) <= MostMoves(|s.workers|, s.rounds)
  {
    forall t | 0 <= t < |s.workers| ensures 0 <= WorkerRank(s.workers[t]) <= 13 * s.rounds + 1 { WorkerBound(s, t); }
    TotalBound(s.workers, WorkerRank, 13 * s.rounds + 1);
    MasterBound(s);
  }

  lemma WorkerBound(s: State, t: nat)
    requires Inv(s) && t < |s.workers|
    ensures 0 <= WorkerRank(s.workers[t]) <= 13 * s.rounds + 1
  {
    if InRun(s) { assert RunFits(s.master.i, s.workers[t]); }
    if s.status.Wait? { assert GatherFits(s.master.i, s.workers[t]); }
  }

  lemma MasterBound(s: State)
    requires Inv(s)
    ensures MasterRank(s) <= 3 * s.rounds + 2 + |s.workers|
  {
  }

  /** The number of moves of a run is bounded, and until the master has joined all workers someone can
      move: so after Quit, and in every round before, no worker and no master waits for ever. */
  lemma RunFinishes(run: seq<State>, nbworkers: nat, rounds: nat, i: nat)
    requires IsRun(run, nbworkers, rounds) && i < |run|
    ensures MovesIn(run, i) <= MostMoves(nbworkers, rounds)
    ensures !run[i].master.Finished? ==> exists a :: Moves(run[i], a)
  {
    RunInv(run, nbworkers, rounds, i);
    MovesInRank(run, nbworkers, rounds, i);
    RankBound(run[i]);
    if !run[i].master.Finished? {
      var a := SomeoneMoves(run[i]);
    }
  }

  // ---- The code ----

  /** What the loops of lines 103-110 and 115-120, the latch and the joins wait for. */
  datatype Awaited = ForRound | ForRun | ForLatch | ForThread(j: nat)

  predicate Blocks(w: Awaited, s: State) {
    match w
    case ForRound => !s.status.Wait? && !s.status.Quit?
    case ForRun => !s.status.Run? && !s.status.Abort?
    case ForLatch => !s.raised
    case ForThread(j) => j < |s.workers| && !s.workers[j].pc.Returned?
  }

  ghost predicate WorkerGaveUp(run: seq<State>, n: int, turns: nat) {
    GaveUp(run, n, turns, ForRound, Blocks) || GaveUp(run, n, turns, ForRun, Blocks)
  }

  ghost predicate MasterGaveUp(run: seq<State>, n: int, turns: nat) {
    GaveUp(run, n, turns, ForLatch, Blocks) || exists j: nat :: GaveUp(run, n, turns, ForThread(j), Blocks)
  }

  /** At state `k` the workload of `me` in round `r` has just returned, with an error or not. */
  ghost predicate ReportedAt(run: seq<State>, k: nat, me: nat, r: nat, error: bool)
    requires k < |run|
  {
    && me < |run[k].workers|
    && run[k].workers[me].pc == (if error then StoreErr else Notify)
    && run[k].workers[me].round == r && run[k].workers[me].ran == Upto(r + 1)
    && (me in run[k].failed <==> error)
  }

  ghost predicate Reported(run: seq<State>, me: nat, r: nat, error: bool) {
    exists k: nat :: k < |run| && ReportedAt(run, k, me, r, error)
  }

  lemma ReportedLater(run: seq<State>, run': seq<State>, me: nat, r: nat, error: bool)
    requires run <= run' && Reported(run, me, r, error)
    ensures Reported(run', me, r, error)
  {
    var k: nat :| k < |run| && ReportedAt(run, k, me, r, error);
    assert ReportedAt(run', k, me, r, error);
  }

  lemma WorkerGaveUpLater(run: seq<State>, run': seq<State>, n: int, n': int, turns: nat)
    requires run <= run' && n' <= n && WorkerGaveUp(run, n, turns)
    ensures WorkerGaveUp(run', n', turns)
  {
    var w := if GaveUp(run, n, turns, ForRound, Blocks) then ForRound else ForRun;
    GaveUpLater(run, run', n, n', turns, w, Blocks);
  }

  /** The Sync object, with the master and the workers that use it.  Between two accesses of one thread the
      others may do anything they can; a spin or wait loop is followed for as many turns as `patience`
      allows. */
  class Sync {
    const nbworkers: nat
    const rounds: nat
    var nbready: int
    var status: Status
    var errmsg: Option<nat>
    var raised: bool
    var master: Master
    var workers: seq<Worker>
    var failed: set<nat>
    ghost var run: seq<State>

    function Now(): State
      reads this
    {
      State(rounds, status, nbready, errmsg, raised, master, workers, failed)
    }

    ghost predicate Valid()
      reads this
    {
      IsRun(run, nbworkers, rounds) && run[|run| - 1] == Now() && |workers| == nbworkers
    }

    /** Thread `t` is a worker at `pc`. */
    ghost predicate At(t: nat, pc: Pc)
      reads this
    {
      Valid() && t < nbworkers && workers[t].pc == pc
    }

    constructor (nbworkers: nat, rounds: nat)
      requires nbworkers > 0 && rounds > 0
      ensures Valid() && this.nbworkers == nbworkers && this.rounds == rounds && Now() == Initial(nbworkers, rounds)
    {
      this.nbworkers, this.rounds := nbworkers, rounds;
      nbready, status, errmsg, raised := 0, Done, None, false;
      master, failed := Start(0), {};
      workers := seq(nbworkers, i => Worker(Poll, 0, []));
      run := [Initial(nbworkers, rounds)];
    }

    /** Action `a` has just been taken. */
    ghost method Append(before: State, a: Action)
      requires IsRun(run, nbworkers, rounds) && run[|run| - 1] == before && |before.workers| == nbworkers
      requires Enabled(before, a) && Now() == Do(before, a)
      modifies this`run
      ensures Valid() && run == old(run) + [Now()]
    {
      run := run + [Now()];
      forall i | 0 <= i < |run| - 1 ensures StepAt(run, i) {
        if i < |run| - 2 { assert StepAt(old(run), i); } else { assert run[i] == before; }
      }
      DoFrame(before, a);
    }

    method Move(a: Action)
      requires Valid() && Enabled(Now(), a)
      modifies this
      ensures Valid() && old(run) <= run && Now() == Do(old(Now()), a)
    {
      ghost var before := Now();
      var s := Do(Now(), a);
      nbready, status, errmsg, raised := s.nbready, s.status, s.errmsg, s.raised;
      master, workers, failed := s.master, s.workers, s.failed;
      DoFrame(before, a);
      Append(before, a);
    }

    /** Any number of steps of the master and of workers other than `me`. */
    method OthersOf(me: nat)
      requires Valid() && me < nbworkers
      modifies this
      ensures Valid() && old(run) <= run && workers[me] == old(workers)[me]
    {
      var steps: nat := *;
      while steps > 0
        invariant Valid() && old(run) <= run && workers[me] == old(workers)[me]
      {
        var a: Action := *;
        if Enabled(Now(), a) && (a.WorkerStep? ==> a.t != me) {
          OthersUntouched(Now(), a, me);
          Move(a);
        }
        steps := steps - 1;
      }
    }

    /** Any number of steps of the workers. */
    method WorkersMove()
      requires Valid()
      modifies this
      ensures Valid() && old(run) <= run && master == old(master)
    {
      var steps: nat := *;
      while steps > 0
        invariant Valid() && old(run) <= run && master == old(master)
      {
        var a: Action := *;
        if Enabled(Now(), a) && a.WorkerStep? {
          OthersUntouched(Now(), a, 0);
          Move(a);
        }
        steps := steps - 1;
      }
    }

    /** Sync::worker_wait (lines 102-122): wait for the next round, or for the end. */
    method WorkerWait(me: nat, patience: nat) returns (woke: bool, proceed: bool)
      requires At(me, Poll)
      modifies this
      ensures Valid() && old(run) <= run
      ensures woke ==> workers[me] == old(workers)[me].(pc := if proceed then Working else Returned)
      ensures !woke ==> WorkerGaveUp(run, |old(run)| - 1, patience)
    {
      woke, proceed := SpinStatus(me, patience);
      if !woke || !proceed { return; }
      var last := Arrive(me);
      if last {
        SwitchToRun(me);
      } else {
        ghost var was := run;
        woke := SpinRun(me, patience);
        if !woke { GaveUpLater(run, run, |was| - 1, |old(run)| - 1, patience, ForRun, Blocks); }
      }
    }

    /** Lines 103-110. */
    method SpinStatus(me: nat, patience: nat) returns (woke: bool, proceed: bool)
      requires At(me, Poll)
      modifies this
      ensures Valid() && old(run) <= run
      ensures workers[me] == old(workers)[me].(pc := if !woke then Poll else if proceed then Ready else Returned)
      ensures !woke ==> GaveUp(run, |old(run)| - 1, patience, ForRound, Blocks)
    {
      var turns := 0;
      ghost var n := |run| - 1;
      NoTurns(run, n, ForRound, Blocks);
      woke, proceed := false, false;
      while !woke && turns < patience
        invariant Valid() && old(run) <= run
        invariant workers[me] == old(workers)[me].(pc := if !woke then Poll else if proceed then Ready else Returned)
        invariant turns <= patience && (!woke ==> GaveUp(run, n, turns, ForRound, Blocks))
        decreases !woke, patience - turns
      {
        ghost var was := run;
        OthersOf(me);
        ghost var before, k := Now(), |run| - 1;
        woke := status == Wait || status == Quit;
        proceed := status == Wait;
        if woke { workers := workers[me := workers[me].(pc := if proceed then Ready else Returned)]; }
        Append(before, WorkerStep(me, false));
        if !woke { OneMoreTurn(was, run, n, turns, k, ForRound, Blocks); }
        turns := turns + 1;
      }
    }

    /** Line 111. */
    method Arrive(me: nat) returns (last: bool)
      requires At(me, Ready)
      modifies this
      ensures Valid() && old(run) <= run
      ensures workers[me] == old(workers)[me].(pc := if last then ResetRun else AwaitRun)
    {
      OthersOf(me);
      ghost var before := Now();
      nbready := nbready + 1;
      last := nbready == nbworkers;
      workers := workers[me := workers[me].(pc := if last then ResetRun else AwaitRun)];
      Append(before, WorkerStep(me, false));
    }

    /** Lines 113-114. */
    method SwitchToRun(me: nat)
      requires At(me, ResetRun)
      modifies this
      ensures Valid() && old(run) <= run
      ensures workers[me] == old(workers)[me].(pc := Working)
    {
      OthersOf(me);
      ghost var before := Now();
      nbready := 0;
      workers := workers[me := workers[me].(pc := SetRun)];
      Append(before, WorkerStep(me, false));
      OthersOf(me);
      before := Now();
      status := Run;
      workers := workers[me := workers[me].(pc := Working)];
      Append(before, WorkerStep(me, false));
    }

    /** Lines 115-120. */
    method SpinRun(me: nat, patience: nat) returns (woke: bool)
      requires At(me, AwaitRun)
      modifies this
      ensures Valid() && old(run) <= run
      ensures workers[me] == old(workers)[me].(pc := if woke then Working else AwaitRun)
      ensures !woke ==> GaveUp(run, |old(run)| - 1, patience, ForRun, Blocks)
    {
      var turns := 0;
      ghost var n := |run| - 1;
      NoTurns(run, n, ForRun, Blocks);
      woke := false;
      while !woke && turns < patience
        invariant Valid() && old(run) <= run
        invariant workers[me] == old(workers)[me].(pc := if woke then Working else AwaitRun)
        invariant turns <= patience && (!woke ==> GaveUp(run, n, turns, ForRun, Blocks))
        decreases !woke, patience - turns
      {
        ghost var was := run;
        OthersOf(me);
        ghost var before, k := Now(), |run| - 1;
        woke := status == Run || status == Abort;
        if woke { workers := workers[me := workers[me].(pc := Working)]; }
        Append(before, WorkerStep(me, false));
        if !woke { OneMoreTurn(was, run, n, turns, k, ForRun, Blocks); }
        turns := turns + 1;
      }
    }

    /** The workload returns (lines 166-176); it is run in a round the master waits for. */
    method RunWorkload(me: nat, error: bool)
      requires At(me, Working)
      modifies this
      ensures Valid() && old(run) <= run
      ensures workers[me].pc == (if error then StoreErr else Notify) && workers[me].round == old(workers)[me].round
      ensures workers[me].ran == Upto(workers[me].round + 1)
      ensures Reported(run, me, old(workers)[me].round, error)
    {
      OthersOf(me);
      NoRoundMissedOrRepeated(run, nbworkers, rounds, |run| - 1, me);
      NothingUnexpected(run, nbworkers, rounds, |run| - 1, me);
      RunInv(run, nbworkers, rounds, |run| - 1);
      assert Upto(workers[me].round) + [master.i] == Upto(workers[me].round + 1);
      assert FailedFits(Now(), me);
      Move(WorkerStep(me, error));
      assert ReportedAt(run, |run| - 1, me, old(workers)[me].round, error);
    }

    /** Sync::worker_notify (lines 126-138). */
    method WorkerNotify(me: nat, error: bool)
      requires At(me, if error then StoreErr else Notify)
      modifies this
      ensures Valid() && old(run) <= run
      ensures workers[me] == old(workers)[me].(pc := Poll, round := old(workers)[me].round + 1)
    {
      if error { ReportError(me); }
      var last := Leave(me);
      if last { CloseRound(me); }
    }

    /** Lines 128-129. */
    method ReportError(me: nat)
      requires At(me, StoreErr)
      modifies this
      ensures Valid() && old(run) <= run && workers[me] == old(workers)[me].(pc := Notify)
    {
      OthersOf(me);
      ghost var before := Now();
      errmsg := Some(me);
      workers := workers[me := workers[me].(pc := SetAbort)];
      Append(before, WorkerStep(me, false));
      OthersOf(me);
      before := Now();
      status := Abort;
      workers := workers[me := workers[me].(pc := Notify)];
      Append(before, WorkerStep(me, false));
    }

    /** Line 131. */
    method Leave(me: nat) returns (last: bool)
      requires At(me, Notify)
      modifies this
      ensures Valid() && old(run) <= run
      ensures workers[me] == if last then old(workers)[me].(pc := ResetDone)
                             else old(workers)[me].(pc := Poll, round := old(workers)[me].round + 1)
    {
      OthersOf(me);
      ghost var before := Now();
      nbready := nbready + 1;
      last := nbready == nbworkers;
      workers := workers[me := if last then workers[me].(pc := ResetDone)
                               else workers[me].(pc := Poll, round := workers[me].round + 1)];
      Append(before, WorkerStep(me, false));
    }

    /** Lines 133-136. */
    method CloseRound(me: nat)
      requires At(me, ResetDone)
      modifies this
      ensures Valid() && old(run) <= run
      ensures workers[me] == old(workers)[me].(pc := Poll, round := old(workers)[me].round + 1)
    {
      OthersOf(me);
      ghost var before := Now();
      nbready := 0;
      workers := workers[me := workers[me].(pc := LoadStatus)];
      Append(before, WorkerStep(me, false));
      StoreOutcome(me);
      OthersOf(me);
      before := Now();
      raised := true;
      workers := workers[me := workers[me].(pc := Poll, round := workers[me].round + 1)];
      Append(before, WorkerStep(me, false));
    }

    /** Line 134. */
    method StoreOutcome(me: nat)
      requires At(me, LoadStatus)
      modifies this
      ensures Valid() && old(run) <= run && workers[me] == old(workers)[me].(pc := Raise)
    {
      OthersOf(me);
      ghost var before := Now();
      var fail := status == Abort;
      workers := workers[me := workers[me].(pc := StoreDone(fail))];
      Append(before, WorkerStep(me, false));
      OthersOf(me);
      before := Now();
      status := if fail then Fail else Done;
      workers := workers[me := workers[me].(pc := Raise)];
      Append(before, WorkerStep(me, false));
    }

    /** The thread of one worker (lines 163-180), whose workloads report `errors`.  Unless its patience runs
        out it returns having run its workload once in each round so far, and it never gets to line 180. */
    method WorkerThread(me: nat, patience: nat, errors: seq<bool>) returns (returned: bool)
      requires At(me, Poll) && workers[me].round == 0 && |errors| == rounds
      modifies this
      ensures Valid() && old(run) <= run
      ensures returned ==> workers[me].pc.Returned? && workers[me].ran == Upto(workers[me].round)
      ensures returned ==> workers[me].round <= rounds && forall r :: 0 <= r < workers[me].round ==> Reported(run, me, r, errors[r])
      ensures !returned ==> WorkerGaveUp(run, |old(run)| - 1, patience)
    {
      var i := 0;
      while i < rounds
        invariant 0 <= i <= rounds && At(me, Poll) && old(run) <= run && workers[me].round == i
        invariant forall r :: 0 <= r < i ==> Reported(run, me, r, errors[r])
      {
        ghost var was := run;
        var woke, proceed := WorkerWait(me, patience);
        if !woke {
          WorkerGaveUpLater(run, run, |was| - 1, |old(run)| - 1, patience);
          return false;
        }
        if proceed { RunAndNotify(me, errors[i]); }
        forall r | 0 <= r < i ensures Reported(run, me, r, errors[r]) { ReportedLater(was, run, me, r, errors[r]); }
        if !proceed {
          RunInv(run, nbworkers, rounds, |run| - 1);
          return true;
        }
        i := i + 1;
      }
      returned := LastWait(me, patience, errors);
    }

    /** Lines 166-176, and the report. */
    method RunAndNotify(me: nat, error: bool)
      requires At(me, Working)
      modifies this
      ensures old(run) <= run && At(me, Poll) && workers[me].round == old(workers)[me].round + 1
      ensures Reported(run, me, old(workers)[me].round, error)
    {
      RunWorkload(me, error);
      ghost var was := run;
      WorkerNotify(me, error);
      ReportedLater(was, run, me, old(workers)[me].round, error);
    }

    /** Lines 178-180. */
    method LastWait(me: nat, patience: nat, ghost errors: seq<bool>) returns (returned: bool)
      requires At(me, Poll) && workers[me].round == rounds == |errors|
      requires forall r :: 0 <= r < rounds ==> Reported(run, me, r, errors[r])
      modifies this
      ensures Valid() && old(run) <= run
      ensures returned ==> workers[me].pc.Returned? && workers[me].ran == Upto(workers[me].round) && workers[me].round == rounds
      ensures returned ==> forall r :: 0 <= r < rounds ==> Reported(run, me, r, errors[r])
      ensures !returned ==> WorkerGaveUp(run, |old(run)| - 1, patience)
    {
      ghost var was := run;
      var woke, proceed := WorkerWait(me, patience);
      forall r | 0 <= r < rounds ensures Reported(run, me, r, errors[r]) { ReportedLater(was, run, me, r, errors[r]); }
      RunInv(run, nbworkers, rounds, |run| - 1);
      NoRoundMissedOrRepeated(run, nbworkers, rounds, |run| - 1, me);
      returned := woke;
    }

    /** One round of the master (lines 208-215): master_notify and master_wait. */
    method RunRound(patience: nat) returns (woke: bool, error: Option<nat>)
      requires Valid() && master.Start?
      modifies this
      ensures Valid() && old(run) <= run
      ensures woke ==> (error.Some? <==> failed != {}) && (error.Some? ==> error.value in failed)
      ensures woke ==> forall t :: 0 <= t < nbworkers ==> workers[t].ran == Upto(old(master).i + 1)
      ensures woke ==> master == if error.Some? || old(master).i + 1 >= rounds then Join(old(master).i + 1, error)
                                 else Start(old(master).i + 1)
      ensures !woke ==> GaveUp(run, |old(run)| - 1, patience, ForLatch, Blocks)
    {
      WorkersMove();
      ghost var before := Now();
      status := Wait;
      failed := {};
      master := Waiting(master.i);
      Append(before, MasterStep);
      ghost var was := run;
      woke := LatchWait(patience);
      error := None;
      if !woke {
        GaveUpLater(run, run, |was| - 1, |old(run)| - 1, patience, ForLatch, Blocks);
        return;
      }
      WorkersMove();
      MasterWakesInDoneOrFail(run, nbworkers, rounds, |run| - 1);
      error := CheckStatus();
    }

    /** Lines 90-97. */
    method CheckStatus() returns (error: Option<nat>)
      requires Valid() && master.Checking? && (status.Done? || status.Fail?)
      requires status.Fail? ==> errmsg.Some?
      modifies this
      ensures Valid() && old(run) <= run
      ensures workers == old(workers) && failed == old(failed)
      ensures error == if old(status).Fail? then old(errmsg) else None
      ensures master == if error.Some? || old(master).i + 1 >= rounds then Join(old(master).i + 1, error)
                        else Start(old(master).i + 1)
    {
      ghost var before := Now();
      var i := master.i;
      if status == Done {
        error := None;
        master := if i + 1 < rounds then Start(i + 1) else Join(i + 1, None);
      } else {
        error := errmsg;
        master := Join(i + 1, error);
      }
      Append(before, MasterStep);
    }

    /** Latch::wait without a timeout (grading/common.hpp lines 233-250). */
    method LatchWait(patience: nat) returns (woke: bool)
      requires Valid() && master.Waiting?
      modifies this
      ensures Valid() && old(run) <= run
      ensures master == if woke then Checking(old(master).i) else old(master)
      ensures !woke ==> GaveUp(run, |old(run)| - 1, patience, ForLatch, Blocks)
    {
      var turns := 0;
      ghost var n := |run| - 1;
      NoTurns(run, n, ForLatch, Blocks);
      woke := false;
      while !woke && turns < patience
        invariant Valid() && old(run) <= run
        invariant master == if woke then Checking(old(master).i) else old(master)
        invariant turns <= patience && (!woke ==> GaveUp(run, n, turns, ForLatch, Blocks))
        decreases !woke, patience - turns
      {
        ghost var was := run;
        WorkersMove();
        ghost var before, k := Now(), |run| - 1;
        woke := raised;
        if woke { raised, master := false, Checking(master.i); }
        Append(before, MasterStep);
        if !woke { OneMoreTurn(was, run, n, turns, k, ForLatch, Blocks); }
        turns := turns + 1;
      }
    }

    /** What `measure` does with the protocol (lines 201-241): rounds until one fails, then join. */
    method MasterThread(patience: nat) returns (finished: bool, error: Option<nat>)
      requires Valid() && master == Start(0) && rounds > 0
      modifies this
      ensures Valid() && old(run) <= run
      ensures finished ==> forall t :: 0 <= t < nbworkers ==> workers[t].pc.Returned?
      ensures finished && error == None ==> forall t :: 0 <= t < nbworkers ==> workers[t].ran == Upto(rounds)
      ensures finished ==> (error == None <==> failed == {}) && (error.Some? ==> error.value in failed)
      ensures finished ==> master.Finished? && master.error == error && forall t :: 0 <= t < nbworkers ==> workers[t].ran == Upto(master.i)
      ensures !finished ==> MasterGaveUp(run, |old(run)| - 1, patience)
    {
      var i := 0;
      error := None;
      while i < rounds && error == None
        invariant 0 <= i <= rounds && Valid() && old(run) <= run
        invariant master == if error.Some? || i == rounds then Join(i, error) else Start(i)
        decreases rounds - i
      {
        ghost var was := run;
        finished, error := RunRound(patience);
        if !finished {
          GaveUpLater(run, run, |was| - 1, |old(run)| - 1, patience, ForLatch, Blocks);
          return;
        }
        i := i + 1;
      }
      finished := QuitAndJoin(i, error, patience, |old(run)| - 1);
    }

    /** Lines 237-241. */
    method QuitAndJoin(i: nat, error: Option<nat>, patience: nat, ghost n: int) returns (finished: bool)
      requires Valid() && master == Join(i, error) && n < |run|
      modifies this
      ensures Valid() && old(run) <= run
      ensures finished ==> master == Finished(i, error) && (error == None <==> failed == {}) && (error.Some? ==> error.value in failed)
      ensures finished ==> forall t :: 0 <= t < nbworkers ==>
                workers[t].pc.Returned? && workers[t].ran == Upto(i) && (error == None ==> workers[t].ran == Upto(rounds))
      ensures !finished ==> MasterGaveUp(run, n, patience)
    {
      WorkersMove();
      ghost var before := Now();
      status := Quit;
      master := Joining(i, error, 0);
      Append(before, MasterStep);
      ghost var was := run;
      finished := JoinAll(patience);
      if finished {
        forall t | 0 <= t < nbworkers
          ensures workers[t].pc.Returned? && workers[t].ran == Upto(i) && (error == None ==> workers[t].ran == Upto(rounds))
        {
          FinishedMeansReturned(run, nbworkers, rounds, |run| - 1, t);
        }
        FinishedMeansReturned(run, nbworkers, rounds, |run| - 1, 0);
      } else {
        ghost var j: nat :| GaveUp(run, |was| - 1, patience, ForThread(j), Blocks);
        GaveUpLater(run, run, |was| - 1, n, patience, ForThread(j), Blocks);
      }
    }

    /** Lines 239-240. */
    method JoinAll(patience: nat) returns (finished: bool)
      requires Valid() && master.Joining? && master.j == 0
      modifies this
      ensures Valid() && old(run) <= run
      ensures finished ==> master == Finished(old(master).i, old(master).error)
      ensures !finished ==> exists j: nat :: GaveUp(run, |old(run)| - 1, patience, ForThread(j), Blocks)
    {
      ghost var e := master;
      var j := 0;
      while j < nbworkers
        invariant 0 <= j <= nbworkers && Valid() && old(run) <= run && master == Joining(e.i, e.error, j)
      {
        ghost var was := run;
        var joined := JoinThread(j, patience);
        if !joined {
          GaveUpLater(run, run, |was| - 1, |old(run)| - 1, patience, ForThread(j), Blocks);
          return false;
        }
        j := j + 1;
      }
      ghost var before := Now();
      master := Finished(master.i, master.error);
      Append(before, MasterStep);
      finished := true;
    }

    method JoinThread(j: nat, patience: nat) returns (joined: bool)
      requires Valid() && master.Joining? && master.j == j < nbworkers
      modifies this
      ensures Valid() && old(run) <= run
      ensures master == if joined then Joining(old(master).i, old(master).error, j + 1) else old(master)
      ensures !joined ==> GaveUp(run, |old(run)| - 1, patience, ForThread(j), Blocks)
    {
      var turns := 0;
      ghost var n := |run| - 1;
      NoTurns(run, n, ForThread(j), Blocks);
      joined := false;
      while !joined && turns < patience
        invariant Valid() && old(run) <= run
        invariant master == if joined then Joining(old(master).i, old(master).error, j + 1) else old(master)
        invariant turns <= patience && (!joined ==> GaveUp(run, n, turns, ForThread(j), Blocks))
        decreases !joined, patience - turns
      {
        ghost var was := run;
        WorkersMove();
        ghost var before, k := Now(), |run| - 1;
        joined := workers[j].pc.Returned?;
        if joined { master := Joining(master.i, master.error, j + 1); }
        Append(before, MasterStep);
        if !joined { OneMoreTurn(was, run, n, turns, k, ForThread(j), Blocks); }
        turns := turns + 1;
      }
    }
  }

  lemma OthersUntouched(s: State, a: Action, me: nat)
    requires Enabled(s, a) && me < |s.workers|
    ensures |Do(s, a).workers| == |s.workers|
    ensures !a.WorkerStep? || a.t != me ==> Do(s, a).workers[me] == s.workers[me]
    ensures a.WorkerStep? ==> Do(s, a).master == s.master
  {
  }
}
