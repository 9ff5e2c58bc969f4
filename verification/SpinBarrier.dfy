/** The reusable spin barrier of grading/common.hpp (lines 288-333): any number of threads, each of which
    calls `sync` any number of times.  Each access to an atomic is one step. */
module SpinBarrier {
  import opened Counting
  import opened Patience

  datatype Mode = Enter | Leave

  /** Where a thread stands in `sync`; the comments cite grading/common.hpp. */
  datatype Pc =
    | Outside     // between two calls of sync; its next step is the fetch_add of line 319
    | SetLeave    // 320: store leave mode
    | AwaitLeave  // 322: spin until leave mode
    | Leaving     // 326: fetch_sub
    | SetEnter    // 327: store enter mode
    | AwaitEnter  // 329: spin until enter mode

  /** `entered` and `returned` are history variables: how many calls of sync the thread has begun with
      its fetch_add, and how many have returned. */
  datatype Thread = Thread(pc: Pc, entered: nat, returned: nat)

  /** `calls` is how often each thread will call sync, `round` how many rounds are over (history). */
  datatype State = State(calls: nat, step: int, mode: Mode, threads: seq<Thread>, round: nat)

  function Initial(cardinal: nat, calls: nat): State {
    State(calls, 0, Enter, seq(cardinal, i => Thread(Outside, 0, 0)), 0)
  }

  predicate Done(s: State, t: nat)
    requires t < |s.threads|
  {
    s.threads[t].pc.Outside? && s.threads[t].returned >= s.calls
  }

  function Put(s: State, t: nat, x: Thread): State
    requires t < |s.threads|
  {
    s.(threads := s.threads[t := x])
  }

  /** One access of thread `t`; a spinning thread that does not see its mode stays where it is. */
  function Do(s: State, t: nat): State
    requires t < |s.threads| && !Done(s, t)
  {
    var x := s.threads[t];
    match x.pc
    case Outside =>
      var last := s.step + 1 == |s.threads|;
      Put(s, t, Thread(if last then SetLeave else AwaitLeave, x.entered + 1, x.returned)).(step := s.step + 1)
    case SetLeave => Put(s, t, x.(pc := Leaving)).(mode := Leave)
    case AwaitLeave => if s.mode.Leave? then Put(s, t, x.(pc := Leaving)) else s
    case Leaving => Put(s, t, x.(pc := if s.step - 1 == 0 then SetEnter else AwaitEnter)).(step := s.step - 1)
    case SetEnter =>
      Put(s, t, Thread(Outside, x.entered, x.returned + 1)).(mode := Enter, round := s.round + 1)
    case AwaitEnter => if s.mode.Enter? then Put(s, t, Thread(Outside, x.entered, x.returned + 1)) else s
  }

  ghost predicate Next(s: State, s': State) {
    exists t :: 0 <= t < |s.threads| && !Done(s, t) && s' == Do(s, t)
  }

  ghost predicate StepAt(run: seq<State>, i: nat)
    requires i + 1 < |run|
  {
    Next(run[i], run[i + 1])
  }

  ghost predicate IsRun(run: seq<State>, cardinal: nat, calls: nat) {
    && |run| > 0 && cardinal > 0
    && run[0] == Initial(cardinal, calls)
    && forall i {:trigger StepAt(run, i)} :: 0 <= i < |run| - 1 ==> StepAt(run, i)
  }

  // ---- Invariant ----

  /** Counted in `step`. */
  predicate Inside(x: Thread) {
    x.pc.SetLeave? || x.pc.AwaitLeave? || x.pc.Leaving?
  }

  /** About to change the mode. */
  predicate Setter(x: Thread) {
    x.pc.SetLeave? || x.pc.SetEnter?
  }

  /** Where a thread may stand while the barrier is in a mode in round `r`. */
  predicate Fits(mode: Mode, r: nat, calls: nat, x: Thread) {
    if mode.Enter? then
      match x.pc
      case Outside => x.entered == x.returned == r
      case AwaitLeave => x.entered == r + 1 && x.returned == r < calls
      case SetLeave => x.entered == r + 1 && x.returned == r < calls
      case AwaitEnter => x.entered == r == x.returned + 1
      case Leaving => false
      case SetEnter => false
    else
      && !x.pc.Outside? && !x.pc.SetLeave?
      && x.entered == r + 1 && x.returned == r < calls
  }

  ghost predicate Inv(s: State) {
    && |s.threads| > 0 && s.round <= s.calls
    && (forall t :: 0 <= t < |s.threads| ==> Fits(s.mode, s.round, s.calls, s.threads[t]))
    && s.step == Count(s.threads, Inside)
    && Count(s.threads, Setter) == if s.step == (if s.mode.Enter? then |s.threads| else 0) then 1 else 0
  }

  lemma InitialInv(cardinal: nat, calls: nat)
    requires cardinal > 0
    ensures Inv(Initial(cardinal, calls))
  {
    CountBounds(Initial(cardinal, calls).threads, Inside);
    CountBounds(Initial(cardinal, calls).threads, Setter);
  }

  /** When a thread is about to change the mode, all the others spin for the change. */
  lemma SetterIsAlone(s: State, t: nat, u: nat)
    requires Inv(s) && t < |s.threads| && u < |s.threads| && t != u && Setter(s.threads[t])
    ensures s.threads[u].pc == if s.mode.Enter? then AwaitLeave else AwaitEnter
  {
    CountBounds(s.threads, Setter);
    CountBounds(s.threads, Inside);
    if Setter(s.threads[u]) { CountTwo(s.threads, t, u, Setter); }
  }

  lemma DoInv(s: State, t: nat)
    requires Inv(s) && t < |s.threads| && !Done(s, t)
    ensures Inv(Do(s, t))
  {
    var s' := Do(s, t);
    CountUpdate(s.threads, t, s'.threads[t], Inside);
    CountUpdate(s.threads, t, s'.threads[t], Setter);
    CountBounds(s.threads, Inside);
    CountBounds(s'.threads, Inside);
    if Setter(s.threads[t]) {
      forall u | 0 <= u < |s.threads| && u != t ensures Fits(s'.mode, s'.round, s'.calls, s'.threads[u]) {
        SetterIsAlone(s, t, u);
      }
    }
    CountBounds(s.threads, Setter);
  }

  lemma {:induction false} RunInv(run: seq<State>, cardinal: nat, calls: nat, i: nat)
    requires IsRun(run, cardinal, calls) && i < |run|
    ensures Inv(run[i]) && |run[i].threads| == cardinal && run[i].calls == calls
  {
    if i == 0 {
      InitialInv(cardinal, calls);
    } else {
      RunInv(run, cardinal, calls, i - 1);
      assert StepAt(run, i - 1);
      var t :| 0 <= t < |run[i - 1].threads| && !Done(run[i - 1], t) && run[i] == Do(run[i - 1], t);
      DoInv(run[i - 1], t);
    }
  }

  // ---- What the barrier promises ----

  /** No thread returns from its k-th sync before every thread has entered its k-th sync, and any two
      threads are at most one round apart. */
  lemma NoEarlyReturn(run: seq<State>, cardinal: nat, calls: nat, i: nat, t: nat, u: nat)
    requires IsRun(run, cardinal, calls) && i < |run| && t < cardinal && u < cardinal
    ensures |run[i].threads| == cardinal
    ensures run[i].threads[t].returned <= run[i].threads[u].entered
    ensures run[i].threads[t].entered <= run[i].threads[u].entered + 1
    ensures run[i].threads[t].returned <= run[i].threads[u].returned + 1
    ensures run[i].threads[t].returned <= run[i].threads[t].entered <= run[i].threads[t].returned + 1
  {
    RunInv(run, cardinal, calls, i);
    assert Fits(run[i].mode, run[i].round, calls, run[i].threads[t]);
    assert Fits(run[i].mode, run[i].round, calls, run[i].threads[u]);
  }

  /** The counter never leaves its range, so the unsigned counter of the source does not wrap. */
  lemma StepInRange(run: seq<State>, cardinal: nat, calls: nat, i: nat, t: nat)
    requires IsRun(run, cardinal, calls) && i < |run| && t < cardinal
    ensures 0 <= run[i].step <= cardinal == |run[i].threads|
    ensures run[i].threads[t].pc.Leaving? ==> run[i].step >= 1
    ensures run[i].threads[t].pc.Outside? ==> run[i].step < cardinal
  {
    RunInv(run, cardinal, calls, i);
    CountBounds(run[i].threads, Inside);
  }

  /** A step that is not a turn of a spin loop. */
  predicate Moves(s: State, t: nat) {
    t < |s.threads| && !Done(s, t) && Do(s, t) != s
  }

  /** Until every thread has returned from all its calls, some thread can move. */
  lemma SomeoneMoves(s: State) returns (t: nat)
    requires Inv(s) && exists u :: 0 <= u < |s.threads| && !Done(s, u)
    ensures Moves(s, t)
  {
    t :| t < |s.threads| && !Done(s, t);
    CountBounds(s.threads, Inside);
    CountBounds(s.threads, Setter);
    if !Moves(s, t) {
      // `t` spins: then all threads have arrived and one will set the mode, or one has yet to arrive
      if s.threads[t].pc.AwaitLeave? {
        if s.step == |s.threads| {
          t :| t < |s.threads| && Setter(s.threads[t]);
        } else {
          t :| t < |s.threads| && !Inside(s.threads[t]);
          assert Fits(s.mode, s.round, s.calls, s.threads[t]);
        }
      } else {
        if s.step == 0 {
          t :| t < |s.threads| && Setter(s.threads[t]);
        } else {
          t :| t < |s.threads| && Inside(s.threads[t]);
          assert Fits(s.mode, s.round, s.calls, s.threads[t]);
        }
      }
    }
  }

  /** Moves a thread has made: four for each call of sync. */
  function Made(x: Thread): int {
    4 * x.returned +
    match x.pc
    case Outside => 0
    case SetLeave => 1
    case AwaitLeave => 1
    case Leaving => 2
    case SetEnter => 3
    case AwaitEnter => 3
  }

  function MovesMade(s: State): int {
    Total(s.threads, Made)
  }

  lemma MoveCounts(s: State, t: nat)
    requires t < |s.threads| && !Done(s, t)
    ensures MovesMade(Do(s, t)) == MovesMade(s) + if Moves(s, t) then 1 else 0
  {
    TotalUpdate(s.threads, t, Do(s, t).threads[t], Made);
  }

  /** How many of the first `i` steps of a run were moves. */
  ghost function MovesIn(run: seq<State>, i: nat): nat
    requires i < |run|
  {
    if i == 0 then 0 else MovesIn(run, i - 1) + if run[i] != run[i - 1] then 1 else 0
  }

  lemma {:induction false} MovesInRun(run: seq<State>, cardinal: nat, calls: nat, i: nat)
    requires IsRun(run, cardinal, calls) && i < |run|
    ensures MovesIn(run, i) == MovesMade(run[i])
  {
    if i == 0 {
      TotalBound(run[0].threads, Made, 0);
    } else {
      MovesInRun(run, cardinal, calls, i - 1);
      assert StepAt(run, i - 1);
      var t :| 0 <= t < |run[i - 1].threads| && !Done(run[i - 1], t) && run[i] == Do(run[i - 1], t);
      MoveCounts(run[i - 1], t);
    }
  }

  lemma MadeBound(s: State, t: nat)
    requires Inv(s) && t < |s.threads|
    ensures 0 <= Made(s.threads[t]) <= 4 * s.calls
    ensures Done(s, t) <==> Made(s.threads[t]) == 4 * s.calls
  {
    assert Fits(s.mode, s.round, s.calls, s.threads[t]);
  }

  lemma MovesBound(s: State)
    requires Inv(s)
    ensures MovesMade(s) <= |s.threads| * (4 * s.calls)
    ensures MovesMade(s) == |s.threads| * (4 * s.calls) <==> forall t :: 0 <= t < |s.threads| ==> Done(s, t)
  {
    forall t | 0 <= t < |s.threads|
      ensures 0 <= Made(s.threads[t]) <= 4 * s.calls
      ensures Done(s, t) <==> Made(s.threads[t]) == 4 * s.calls
    {
      MadeBound(s, t);
    }
    TotalBound(s.threads, Made, 4 * s.calls);
  }

  /** A run makes at most four moves per thread and call; it has made them all exactly when every thread
      has returned from all its calls, and until then some thread can move. */
  lemma RunFinishes(run: seq<State>, cardinal: nat, calls: nat, i: nat)
    requires IsRun(run, cardinal, calls) && i < |run|
    ensures |run[i].threads| == cardinal
    ensures MovesIn(run, i) <= cardinal * (4 * calls)
    ensures MovesIn(run, i) == cardinal * (4 * calls) <==> forall t :: 0 <= t < cardinal ==> Done(run[i], t)
    ensures (exists t :: 0 <= t < cardinal && !Done(run[i], t)) ==> exists t :: Moves(run[i], t)
  {
    RunInv(run, cardinal, calls, i);
    MovesInRun(run, cardinal, calls, i);
    MovesBound(run[i]);
    if exists t :: 0 <= t < cardinal && !Done(run[i], t) {
      var t := SomeoneMoves(run[i]);
    }
  }

  // ---- The code ----

  /** The loops of lines 322 and 329 wait for a mode. */
  predicate NotIn(awaited: Mode, s: State) {
    s.mode != awaited
  }

  /** The barrier object.  Between two accesses of one thread the others may do anything they can; a spin
      loop is followed for as many turns as `patience` allows. */
  class Barrier {
    const cardinal: nat
    const calls: nat
    var step: int
    var mode: Mode
    var threads: seq<Thread>
    ghost var round: nat
    ghost var run: seq<State>

    ghost function Now(): State
      reads this
    {
      State(calls, step, mode, threads, round)
    }

    ghost predicate Valid()
      reads this
    {
      IsRun(run, cardinal, calls) && run[|run| - 1] == Now() && |threads| == cardinal
    }

    constructor (cardinal: nat, calls: nat)
      requires cardinal > 0
      ensures Valid() && this.cardinal == cardinal && this.calls == calls && Now() == Initial(cardinal, calls)
    {
      this.cardinal, this.calls := cardinal, calls;
      step, mode, round := 0, Enter, 0;
      threads := seq(cardinal, i => Thread(Outside, 0, 0));
      run := [Initial(cardinal, calls)];
    }

    /** Thread `t` has just made its access. */
    ghost method Append(before: State, t: nat)
      requires IsRun(run, cardinal, calls) && run[|run| - 1] == before && |before.threads| == cardinal
      requires t < cardinal && !Done(before, t) && Now() == Do(before, t)
      modifies this`run
      ensures Valid() && run == old(run) + [Now()]
    {
      run := run + [Now()];
      forall i | 0 <= i < |run| - 1 ensures StepAt(run, i) {
        if i < |run| - 2 { assert StepAt(old(run), i); } else { assert run[i] == before; }
      }
    }

    /** Line 319. */
    method FetchAdd(t: nat) returns (last: bool)
      requires Valid() && t < cardinal && threads[t].pc.Outside? && threads[t].returned < calls
      modifies this
      ensures Valid() && old(run) <= run && Now() == Do(old(Now()), t)
      ensures last <==> threads[t].pc.SetLeave?
    {
      ghost var before := Now();
      step := step + 1;
      last := step == cardinal;
      threads := threads[t := Thread(if last then SetLeave else AwaitLeave, threads[t].entered + 1, threads[t].returned)];
      Append(before, t);
    }

    /** Line 320. */
    method StoreLeave(t: nat)
      requires Valid() && t < cardinal && threads[t].pc.SetLeave?
      modifies this
      ensures Valid() && old(run) <= run && Now() == Do(old(Now()), t)
    {
      ghost var before := Now();
      mode := Leave;
      threads := threads[t := threads[t].(pc := Leaving)];
      Append(before, t);
    }

    /** The load of line 322. */
    method LoadLeave(t: nat) returns (seen: bool)
      requires Valid() && t < cardinal && threads[t].pc.AwaitLeave?
      modifies this
      ensures Valid() && run == old(run) + [Now()] && Now() == Do(old(Now()), t)
      ensures seen <==> threads[t].pc.Leaving?
      ensures seen <==> old(mode) == Leave
    {
      ghost var before := Now();
      seen := mode == Leave;
      if seen { threads := threads[t := threads[t].(pc := Leaving)]; }
      Append(before, t);
    }

    /** Line 326. */
    method FetchSub(t: nat) returns (last: bool)
      requires Valid() && t < cardinal && threads[t].pc.Leaving?
      modifies this
      ensures Valid() && old(run) <= run && Now() == Do(old(Now()), t)
      ensures last <==> threads[t].pc.SetEnter?
    {
      ghost var before := Now();
      step := step - 1;
      last := step == 0;
      threads := threads[t := threads[t].(pc := if last then SetEnter else AwaitEnter)];
      Append(before, t);
    }

    /** Line 327, and the return. */
    method StoreEnter(t: nat)
      requires Valid() && t < cardinal && threads[t].pc.SetEnter?
      modifies this
      ensures Valid() && old(run) <= run && Now() == Do(old(Now()), t)
    {
      ghost var before := Now();
      mode := Enter;
      round := round + 1;
      threads := threads[t := Thread(Outside, threads[t].entered, threads[t].returned + 1)];
      Append(before, t);
    }

    /** The load of line 329, and the return once enter mode is seen. */
    method LoadEnter(t: nat) returns (seen: bool)
      requires Valid() && t < cardinal && threads[t].pc.AwaitEnter?
      modifies this
      ensures Valid() && run == old(run) + [Now()] && Now() == Do(old(Now()), t)
      ensures seen <==> threads[t].pc.Outside?
      ensures seen <==> old(mode) == Enter
    {
      ghost var before := Now();
      seen := mode == Enter;
      if seen { threads := threads[t := Thread(Outside, threads[t].entered, threads[t].returned + 1)]; }
      Append(before, t);
    }

    /** Any number of accesses of threads other than `me`. */
    method Others(me: nat)
      requires Valid() && me < cardinal
      modifies this
      ensures Valid() && old(run) <= run && threads[me] == old(threads)[me]
    {
      var accesses: nat := *;
      while accesses > 0
        invariant Valid() && old(run) <= run && threads[me] == old(threads)[me]
      {
        var t: nat := *;
        if t < cardinal && t != me { Other(t); }
        accesses := accesses - 1;
      }
    }

    /** The next access of thread `t`, if it has one. */
    method Other(t: nat)
      requires Valid() && t < cardinal
      modifies this
      ensures Valid() && old(run) <= run
      ensures forall u :: 0 <= u < cardinal && u != t ==> threads[u] == old(threads)[u]
    {
      match threads[t].pc {
        case Outside => if threads[t].returned < calls { var _ := FetchAdd(t); }
        case SetLeave => StoreLeave(t);
        case AwaitLeave => var _ := LoadLeave(t);
        case Leaving => var _ := FetchSub(t);
        case SetEnter => StoreEnter(t);
        case AwaitEnter => var _ := LoadEnter(t);
      }
    }

    /** Barrier::sync.  When it returns, every thread has entered its call of the same number. */
    method Sync(me: nat, patience: nat) returns (returned: bool)
      requires Valid() && me < cardinal && threads[me].pc.Outside? && threads[me].returned < calls
      modifies this
      ensures Valid() && old(run) <= run
      ensures returned ==> threads[me] == Thread(Outside, old(threads)[me].entered + 1, old(threads)[me].returned + 1)
      ensures returned ==> forall u :: 0 <= u < cardinal ==> threads[u].entered >= threads[me].returned
      ensures !returned ==> GaveUp(run, |old(run)| - 1, patience + 1, Leave, NotIn)
                            || GaveUp(run, |old(run)| - 1, patience + 1, Enter, NotIn)
    {
      returned := EnterPhase(me, patience);
      if returned {
        ghost var was := run;
        returned := LeavePhase(me, patience);
        if !returned { GaveUpLater(run, run, |was| - 1, |old(run)| - 1, patience + 1, Enter, NotIn); }
      }
      if returned {
        forall u | 0 <= u < cardinal ensures threads[u].entered >= threads[me].returned {
          NoEarlyReturn(run, cardinal, calls, |run| - 1, me, u);
        }
      }
    }

    /** Lines 319-324. */
    method EnterPhase(me: nat, patience: nat) returns (seen: bool)
      requires Valid() && me < cardinal && threads[me].pc.Outside? && threads[me].returned < calls
      modifies this
      ensures Valid() && old(run) <= run
      ensures seen ==> threads[me] == Thread(Leaving, old(threads)[me].entered + 1, old(threads)[me].returned)
      ensures !seen ==> GaveUp(run, |old(run)| - 1, patience + 1, Leave, NotIn)
    {
      Others(me);
      var last := FetchAdd(me);
      Others(me);
      if last {
        StoreLeave(me);
        seen := true;
      } else {
        ghost var was := run;
        seen := SpinLeave(me, patience);
        if !seen { GaveUpLater(run, run, |was| - 1, |old(run)| - 1, patience + 1, Leave, NotIn); }
      }
    }

    /** Lines 326-331. */
    method LeavePhase(me: nat, patience: nat) returns (seen: bool)
      requires Valid() && me < cardinal && threads[me].pc.Leaving?
      modifies this
      ensures Valid() && old(run) <= run
      ensures seen ==> threads[me] == Thread(Outside, old(threads)[me].entered, old(threads)[me].returned + 1)
      ensures !seen ==> GaveUp(run, |old(run)| - 1, patience + 1, Enter, NotIn)
    {
      Others(me);
      var last := FetchSub(me);
      Others(me);
      if last {
        StoreEnter(me);
        seen := true;
      } else {
        ghost var was := run;
        seen := SpinEnter(me, patience);
        if !seen { GaveUpLater(run, run, |was| - 1, |old(run)| - 1, patience + 1, Enter, NotIn); }
      }
    }

    /** The loop of lines 322-323. */
    method SpinLeave(me: nat, patience: nat) returns (seen: bool)
      requires Valid() && me < cardinal && threads[me].pc.AwaitLeave?
      modifies this
      ensures Valid() && old(run) <= run
      ensures threads[me] == old(threads)[me].(pc := if seen then Leaving else AwaitLeave)
      ensures !seen ==> GaveUp(run, |old(run)| - 1, patience + 1, Leave, NotIn)
    {
      var turns := 0;
      ghost var n, was := |run| - 1, run;
      NoTurns(run, n, Leave, NotIn);
      seen := LoadLeave(me);
      if !seen { OneMoreTurn(was, run, n, 0, n, Leave, NotIn); }
      while !seen && turns < patience
        invariant Valid() && old(run) <= run
        invariant threads[me] == old(threads)[me].(pc := if seen then Leaving else AwaitLeave)
        invariant turns <= patience && (!seen ==> GaveUp(run, n, turns + 1, Leave, NotIn))
        decreases !seen, patience - turns
      {
        was := run;
        Others(me);
        ghost var k := |run| - 1;
        seen := LoadLeave(me);
        if !seen { OneMoreTurn(was, run, n, turns + 1, k, Leave, NotIn); }
        turns := turns + 1;
      }
    }

    /** The loop of lines 329-330. */
    method SpinEnter(me: nat, patience: nat) returns (seen: bool)
      requires Valid() && me < cardinal && threads[me].pc.AwaitEnter?
      modifies this
      ensures Valid() && old(run) <= run
      ensures threads[me] == if seen then Thread(Outside, old(threads)[me].entered, old(threads)[me].returned + 1)
                             else old(threads)[me]
      ensures !seen ==> GaveUp(run, |old(run)| - 1, patience + 1, Enter, NotIn)
    {
      var turns := 0;
      ghost var n, was := |run| - 1, run;
      NoTurns(run, n, Enter, NotIn);
      seen := LoadEnter(me);
      if !seen { OneMoreTurn(was, run, n, 0, n, Enter, NotIn); }
      while !seen && turns < patience
        invariant Valid() && old(run) <= run
        invariant threads[me] == if seen then Thread(Outside, old(threads)[me].entered, old(threads)[me].returned + 1)
                                 else old(threads)[me]
        invariant turns <= patience && (!seen ==> GaveUp(run, n, turns + 1, Enter, NotIn))
        decreases !seen, patience - turns
      {
        was := run;
        Others(me);
        ghost var k := |run| - 1;
        seen := LoadEnter(me);
        if !seen { OneMoreTurn(was, run, n, turns + 1, k, Enter, NotIn); }
        turns := turns + 1;
      }
    }
  }
}
