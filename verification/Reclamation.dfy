/** Quiescent reclamation of segments (358982/TransactionalMemory.cpp lines 61-75, 358982/tm.cpp lines
    99-191, 358982/Transaction.cpp lines 57-63): every transaction holds `freeing_lock` shared from begin
    to clean-up; a transaction that begins when enough others have ended first takes the lock exclusively
    and frees the segments marked so far. */
module Reclamation {
  import opened Options
  import opened Counting
  import opened Patience

  datatype Status = Absent | InUse | ToBeDeleted | Deleted

  const CLEANING_PERIOD: nat := 100000

  /** Where a transaction stands; the comments cite TransactionalMemory.cpp and tm.cpp. */
  datatype Pc =
    | CheckTime            // 62: load the counter
    | TryExclusive         // 64: spin for the exclusive lock
    | Scanning(i: nat)     // 66-72: look at segment i
    | ResetCounter         // 73
    | UnlockExclusive      // 74
    | TryShared            // tm.cpp 102: spin for a shared lock
    | Live                 // client operations
    | Allocating(seg: nat) // tm.cpp 174-175: the index is drawn, the status not yet stored
    | Counting             // tm.cpp 117: the shared lock is released, the counter not yet bumped
    | Gone

  /** `freed` and `late` are history variables: how often the cleaner freed a segment, and how often a
      client marked it when it was already deleted. */
  datatype State = State(holders: int, exclusive: Option<nat>, counter: int, nsegments: nat, status: seq<Status>,
                         txs: seq<Pc>, freed: seq<nat>, late: seq<nat>)

  function Initial(maxSegments: nat): State
    requires maxSegments > 0
  {
    State(0, None, 0, 1, seq(maxSegments, i => if i == 0 then InUse else Absent), [],
          seq(maxSegments, i => 0), seq(maxSegments, i => 0))
  }

  datatype Action =
    | Begin                    // a thread calls tm_begin
    | Step(t: nat)             // the next access of transaction t
    | Free(t: nat, seg: nat)   // tm_free
    | Alloc(t: nat)            // tm_alloc: draw an index
    | End(t: nat)              // tm_end, up to the release of the shared lock
    | Fail(t: nat)             // a read fails: clean-up without counting

  /** Clients act while their transaction is live and free only segments that were once allocated; there
      are fewer allocations than MAX_SEGMENTS. */
  predicate Enabled(s: State, a: Action) {
    match a
    case Begin => true
    case Step(t) => t < |s.txs| && s.txs[t] != Live && s.txs[t] != Gone
    case Free(t, seg) => t < |s.txs| && s.txs[t] == Live && seg < |s.status| && s.status[seg] != Absent
    case Alloc(t) => t < |s.txs| && s.txs[t] == Live && s.nsegments < |s.status|
    case End(t) => t < |s.txs| && s.txs[t] == Live
    case Fail(t) => t < |s.txs| && s.txs[t] == Live
  }

  function At(s: State, t: nat, pc: Pc): State
    requires t < |s.txs|
  {
    s.(txs := s.txs[t := pc])
  }

  function Do(s: State, a: Action): State
    requires Enabled(s, a)
    requires |s.freed| == |s.late| == |s.status|
  {
    match a
    case Begin => s.(txs := s.txs + [CheckTime])
    case Step(t) => DoStep(s, t)
    case Free(t, seg) =>
      s.(status := s.status[seg := ToBeDeleted],
         late := s.late[seg := s.late[seg] + if s.status[seg] == Deleted then 1 else 0])
    case Alloc(t) => At(s, t, Allocating(s.nsegments)).(nsegments := s.nsegments + 1)
    case End(t) => At(s, t, Counting).(holders := s.holders - 1)
    case Fail(t) => At(s, t, Gone).(holders := s.holders - 1)
  }

  function DoStep(s: State, t: nat): State
    requires t < |s.txs| && |s.freed| == |s.status|
  {
    match s.txs[t]
    case CheckTime => At(s, t, if s.counter < CLEANING_PERIOD then TryShared else TryExclusive)
    case TryExclusive =>
      if s.holders == 0 && s.exclusive == None then At(s, t, Scanning(0)).(exclusive := Some(t)) else s
    case Scanning(i) =>
      if i >= |s.status| then At(s, t, ResetCounter)
      else if s.status[i] == ToBeDeleted then
        At(s, t, Scanning(i + 1)).(status := s.status[i := Deleted], freed := s.freed[i := s.freed[i] + 1])
      else At(s, t, Scanning(i + 1))
    case ResetCounter => At(s, t, UnlockExclusive).(counter := 0)
    case UnlockExclusive => At(s, t, TryShared).(exclusive := None)
    case TryShared => if s.exclusive == None then At(s, t, Live).(holders := s.holders + 1) else s
    case Allocating(seg) => At(s, t, Live).(status := if seg < |s.status| then s.status[seg := InUse] else s.status)
    case Counting => At(s, t, Gone).(counter := s.counter + 1)
    case Live => s
    case Gone => s
  }

  ghost predicate Next(s: State, s': State) {
    |s.freed| == |s.late| == |s.status| && exists a :: Enabled(s, a) && s' == Do(s, a)
  }

  ghost predicate StepAt(run: seq<State>, i: nat)
    requires i + 1 < |run|
  {
    Next(run[i], run[i + 1])
  }

  ghost predicate IsRun(run: seq<State>, maxSegments: nat) {
    && |run| > 0 && maxSegments > 0
    && run[0] == Initial(maxSegments)
    && forall i {:trigger StepAt(run, i)} :: 0 <= i < |run| - 1 ==> StepAt(run, i)
  }

  // ---- Invariant ----

  /** Holds `freeing_lock` shared. */
  predicate Holds(pc: Pc) {
    pc.Live? || pc.Allocating?
  }

  /** Holds it exclusively. */
  predicate Cleans(pc: Pc) {
    pc.Scanning? || pc.ResetCounter? || pc.UnlockExclusive?
  }

  predicate SegmentFits(s: State, k: nat)
    requires k < |s.status| == |s.freed| == |s.late|
  {
    && s.freed[k] == s.late[k] + (if s.status[k] == Deleted then 1 else 0)
    && (s.status[k].Absent? || s.status[k].InUse? ==> s.late[k] == 0)
    && (k >= s.nsegments ==> s.status[k].Absent?)
  }

  predicate Drawn(s: State, t: nat)
    requires t < |s.txs|
  {
    s.txs[t].Allocating? ==> s.txs[t].seg < s.nsegments && s.txs[t].seg < |s.status| && s.status[s.txs[t].seg].Absent?
  }

  /** The shared count is the number of live transactions, and a cleaner excludes them all. */
  ghost predicate LockInv(s: State) {
    && s.holders == Count(s.txs, Holds)
    && (forall t :: 0 <= t < |s.txs| ==> (Cleans(s.txs[t]) <==> s.exclusive == Some(t)))
    && (s.exclusive.Some? ==> s.holders == 0 && s.exclusive.value < |s.txs|)
  }

  ghost predicate SegmentInv(s: State) {
    && |s.freed| == |s.late| == |s.status|
    && (forall k :: 0 <= k < |s.status| ==> SegmentFits(s, k))
    && (forall t :: 0 <= t < |s.txs| ==> Drawn(s, t))
    && forall t, u :: 0 <= t < u < |s.txs| && s.txs[t].Allocating? ==> s.txs[u] != s.txs[t]
  }

  ghost predicate Inv(s: State) {
    LockInv(s) && SegmentInv(s)
  }

  lemma InitialInv(maxSegments: nat)
    requires maxSegments > 0
    ensures Inv(Initial(maxSegments))
  {
  }

  /** While somebody cleans, nobody holds the lock shared. */
  lemma CleanerIsAlone(s: State, t: nat, u: nat)
    requires LockInv(s) && t < |s.txs| && u < |s.txs| && Cleans(s.txs[t])
    ensures !Holds(s.txs[u]) && (u != t ==> !Cleans(s.txs[u]))
  {
    CountBounds(s.txs, Holds);
  }

  /** Transaction `t` has moved without taking or giving back the exclusive lock. */
  lemma SharedMove(s: State, s': State, t: nat)
    requires LockInv(s) && t < |s.txs| && s'.txs == s.txs[t := if t < |s'.txs| then s'.txs[t] else Gone]
    requires s'.holders == s.holders - (if Holds(s.txs[t]) then 1 else 0) + if Holds(s'.txs[t]) then 1 else 0
    requires s'.exclusive == s.exclusive && (Cleans(s'.txs[t]) <==> Cleans(s.txs[t]))
    requires Holds(s'.txs[t]) && !Holds(s.txs[t]) ==> s.exclusive == None
    ensures LockInv(s')
  {
    CountUpdate(s.txs, t, s'.txs[t], Holds);
    CountBounds(s.txs, Holds);
  }

  /** Transaction `t` has taken or given back the exclusive lock. */
  lemma ExclusiveMove(s: State, s': State, t: nat)
    requires LockInv(s) && t < |s.txs| && s'.txs == s.txs[t := if t < |s'.txs| then s'.txs[t] else Gone]
    requires s'.holders == s.holders && !Holds(s.txs[t]) && !Holds(s'.txs[t])
    requires if Cleans(s'.txs[t]) then s.exclusive == None && s.holders == 0 && s'.exclusive == Some(t)
             else Cleans(s.txs[t]) && s'.exclusive == None
    ensures LockInv(s')
  {
    CountUpdate(s.txs, t, s'.txs[t], Holds);
  }

  lemma StepLock(s: State, t: nat)
    requires LockInv(s) && |s.freed| == |s.status| && t < |s.txs|
    ensures LockInv(DoStep(s, t))
  {
    var pc := s.txs[t];
    if (pc.TryExclusive? && s.holders == 0 && s.exclusive == None) || pc.UnlockExclusive? {
      ExclusiveMove(s, DoStep(s, t), t);
    } else {
      SharedMove(s, DoStep(s, t), t);
    }
  }

  /** A transaction has moved and no segment has changed. */
  lemma SegmentsKept(s: State, s': State, t: nat)
    requires SegmentInv(s) && t < |s.txs| && s'.txs == s.txs[t := if t < |s'.txs| then s'.txs[t] else Gone]
    requires !s'.txs[t].Allocating? && s'.nsegments == s.nsegments
    requires s'.status == s.status && s'.freed == s.freed && s'.late == s.late
    ensures SegmentInv(s')
  {
    forall k | 0 <= k < |s.status| ensures SegmentFits(s', k) { assert SegmentFits(s, k); }
    forall u | 0 <= u < |s'.txs| ensures Drawn(s', u) { if u != t { assert Drawn(s, u); } }
  }

  /** One segment has changed its status. */
  lemma SegmentChanged(s: State, s': State, t: nat, j: nat)
    requires SegmentInv(s) && t < |s.txs| && s'.txs == s.txs[t := if t < |s'.txs| then s'.txs[t] else Gone]
    requires !s'.txs[t].Allocating? && s'.nsegments == s.nsegments && j < |s.status|
    requires |s'.status| == |s'.freed| == |s'.late| == |s.status| && SegmentFits(s', j)
    requires forall k :: 0 <= k < |s.status| && k != j ==>
               s'.status[k] == s.status[k] && s'.freed[k] == s.freed[k] && s'.late[k] == s.late[k]
    requires s.status[j].Absent? ==> s.txs[t] == Allocating(j)
    ensures SegmentInv(s')
  {
    forall k | 0 <= k < |s.status| && k != j ensures SegmentFits(s', k) { assert SegmentFits(s, k); }
    forall u | 0 <= u < |s'.txs| ensures Drawn(s', u) { if u != t { assert Drawn(s, u); } }
  }

  lemma StepSegments(s: State, t: nat)
    requires SegmentInv(s) && t < |s.txs|
    ensures SegmentInv(DoStep(s, t))
  {
    var pc := s.txs[t];
    var s' := DoStep(s, t);
    assert Drawn(s, t);
    if pc.Allocating? {
      assert SegmentFits(s, pc.seg);
      SegmentChanged(s, s', t, pc.seg);
    } else if pc.Scanning? && pc.i < |s.status| && s.status[pc.i] == ToBeDeleted {
      assert SegmentFits(s, pc.i);
      SegmentChanged(s, s', t, pc.i);
    } else {
      SegmentsKept(s, s', t);
    }
  }

  lemma FreeInv(s: State, t: nat, seg: nat)
    requires Inv(s) && Enabled(s, Free(t, seg))
    ensures Inv(Do(s, Free(t, seg)))
  {
    assert SegmentFits(s, seg);
    SegmentChanged(s, Do(s, Free(t, seg)), t, seg);
  }

  lemma AllocInv(s: State, t: nat)
    requires Inv(s) && Enabled(s, Alloc(t))
    ensures Inv(Do(s, Alloc(t)))
  {
    var s' := Do(s, Alloc(t));
    SharedMove(s, s', t);
    assert SegmentFits(s, s.nsegments);
    forall k | 0 <= k < |s.status| ensures SegmentFits(s', k) { assert SegmentFits(s, k); }
    forall u | 0 <= u < |s'.txs| ensures Drawn(s', u) { assert Drawn(s, u); }
    forall u | 0 <= u < |s.txs| ensures s.txs[u] != Allocating(s.nsegments) { assert Drawn(s, u); }
  }

  lemma BeginInv(s: State)
    requires Inv(s)
    ensures Inv(Do(s, Begin))
  {
    var s' := Do(s, Begin);
    CountAppend(s.txs, CheckTime, Holds);
    forall k | 0 <= k < |s.status| ensures SegmentFits(s', k) { assert SegmentFits(s, k); }
    forall u | 0 <= u < |s'.txs| ensures Drawn(s', u) { if u < |s.txs| { assert Drawn(s, u); } }
  }

  lemma DoInv(s: State, a: Action)
    requires Inv(s) && Enabled(s, a)
    ensures Inv(Do(s, a))
  {
    match a {
      case Begin => BeginInv(s);
      case Step(t) => StepLock(s, t); StepSegments(s, t);
      case Free(t, seg) => FreeInv(s, t, seg);
      case Alloc(t) => AllocInv(s, t);
      case End(t) => SharedMove(s, Do(s, a), t); SegmentsKept(s, Do(s, a), t);
      case Fail(t) => SharedMove(s, Do(s, a), t); SegmentsKept(s, Do(s, a), t);
    }
  }

  lemma {:induction false} RunInv(run: seq<State>, maxSegments: nat, i: nat)
    requires IsRun(run, maxSegments) && i < |run|
    ensures Inv(run[i]) && |run[i].status| == maxSegments
  {
    if i == 0 {
      InitialInv(maxSegments);
    } else {
      RunInv(run, maxSegments, i - 1);
      assert StepAt(run, i - 1);
      var a :| Enabled(run[i - 1], a) && run[i] == Do(run[i - 1], a);
      DoInv(run[i - 1], a);
      DoFrame(run[i - 1], a);
    }
  }

  // ---- What reclamation promises ----

  /** The lock counts exactly the live transactions. */
  lemma HoldersAreLive(run: seq<State>, maxSegments: nat, i: nat)
    requires IsRun(run, maxSegments) && i < |run|
    ensures run[i].holders == Count(run[i].txs, Holds)
    ensures run[i].exclusive.Some? ==> forall t :: 0 <= t < |run[i].txs| ==> !Holds(run[i].txs[t])
  {
    RunInv(run, maxSegments, i);
    CountBounds(run[i].txs, Holds);
  }

  /** Before, during and after the time a transaction holds the shared lock. */
  function Phase(pc: Pc): int {
    if Holds(pc) then 1 else if pc.Counting? || pc.Gone? then 2 else 0
  }

  lemma DoLengths(s: State, a: Action)
    requires Enabled(s, a) && |s.freed| == |s.late| == |s.status|
    ensures |Do(s, a).freed| == |Do(s, a).late| == |Do(s, a).status| == |s.status|
  {
  }

  /** An action never takes a transaction back, and frees nothing unless nobody holds the lock. */
  lemma DoFrame(s: State, a: Action)
    requires Inv(s) && Enabled(s, a)
    ensures var s' := Do(s, a);
            && |s'.txs| >= |s.txs| && |s'.status| == |s.status|
            && (forall t :: 0 <= t < |s.txs| ==> Phase(s'.txs[t]) >= Phase(s.txs[t]))
            && (s'.freed != s.freed ==> forall t :: 0 <= t < |s.txs| ==> !Holds(s.txs[t]))
  {
    if a.Step? && Cleans(s.txs[a.t]) {
      forall u | 0 <= u < |s.txs| ensures !Holds(s.txs[u]) { CleanerIsAlone(s, a.t, u); }
    }
  }

  lemma {:induction false} PhasesGrow(run: seq<State>, maxSegments: nat, i: nat, j: nat, t: nat)
    requires IsRun(run, maxSegments) && i <= j < |run| && t < |run[i].txs|
    ensures t < |run[j].txs| && Phase(run[j].txs[t]) >= Phase(run[i].txs[t])
    decreases j
  {
    if i < j {
      PhasesGrow(run, maxSegments, i, j - 1, t);
      StepFrame(run, maxSegments, j - 1);
    }
  }

  lemma StepFrame(run: seq<State>, maxSegments: nat, i: nat)
    requires IsRun(run, maxSegments) && i + 1 < |run|
    ensures |run[i + 1].txs| >= |run[i].txs|
    ensures forall t :: 0 <= t < |run[i].txs| ==> Phase(run[i + 1].txs[t]) >= Phase(run[i].txs[t])
    ensures run[i + 1].freed != run[i].freed ==> forall t :: 0 <= t < |run[i].txs| ==> !Holds(run[i].txs[t])
  {
    RunInv(run, maxSegments, i);
    assert StepAt(run, i);
    var a :| Enabled(run[i], a) && run[i + 1] == Do(run[i], a);
    DoFrame(run[i], a);
  }

  /** While a transaction lives nothing is freed. */
  lemma {:induction false} NothingFreedWhileLive(run: seq<State>, maxSegments: nat, i: nat, j: nat, t: nat)
    requires IsRun(run, maxSegments) && i <= j < |run|
    requires t < |run[i].txs| && Holds(run[i].txs[t])
    requires t < |run[j].txs| && Holds(run[j].txs[t])
    ensures run[j].freed == run[i].freed
    decreases j
  {
    if i < j {
      PhasesGrow(run, maxSegments, i, j - 1, t);
      StepFrame(run, maxSegments, j - 1);
      NothingFreedWhileLive(run, maxSegments, i, j - 1, t);
    }
  }

  /** Whenever a segment is freed, every transaction that was live when it was marked has ended. */
  lemma FreedAfterItsReaders(run: seq<State>, maxSegments: nat, i: nat, j: nat, t: nat)
    requires IsRun(run, maxSegments) && i <= j && j + 1 < |run|
    requires t < |run[i].txs| && Holds(run[i].txs[t])
    requires run[j + 1].freed != run[j].freed
    ensures t < |run[j].txs| && (run[j].txs[t].Counting? || run[j].txs[t].Gone?)
  {
    PhasesGrow(run, maxSegments, i, j, t);
    StepFrame(run, maxSegments, j);
  }

  /** A segment has been freed exactly once for its first deletion and once for each completed deletion
      of a mark that came too late; so, if no client marks a deleted segment, at most once, and exactly
      once when it is deleted. */
  lemma FreedOncePerDeletion(run: seq<State>, maxSegments: nat, i: nat, k: nat)
    requires IsRun(run, maxSegments) && i < |run| && k < maxSegments
    ensures |run[i].status| == |run[i].freed| == |run[i].late| == maxSegments
    ensures run[i].freed[k] == run[i].late[k] + if run[i].status[k] == Deleted then 1 else 0
    ensures run[i].late[k] == 0 ==> (run[i].freed[k] == if run[i].status[k] == Deleted then 1 else 0)
    ensures run[i].freed[k] > 1 ==> run[i].late[k] > 0
  {
    RunInv(run, maxSegments, i);
    assert SegmentFits(run[i], k);
  }

  /** Who waits for the lock waits for somebody: a transaction that cleans and only has its own steps before
      it, or, to take it exclusively, one that is live. */
  lemma WaitsForSomebody(run: seq<State>, maxSegments: nat, i: nat, t: nat) returns (u: nat)
    requires IsRun(run, maxSegments) && i < |run| && t < |run[i].txs|
    requires (run[i].txs[t].TryShared? && run[i].exclusive.Some?)
             || (run[i].txs[t].TryExclusive? && (run[i].exclusive.Some? || run[i].holders != 0))
    ensures u < |run[i].txs| && u != t
    ensures if run[i].exclusive.Some? then Cleans(run[i].txs[u]) else run[i].txs[t].TryExclusive? && Holds(run[i].txs[u])
  {
    RunInv(run, maxSegments, i);
    var s := run[i];
    if s.exclusive.Some? {
      u := s.exclusive.value;
    } else {
      CountBounds(s.txs, Holds);
      u :| 0 <= u < |s.txs| && Holds(s.txs[u]);
    }
  }

  // ---- The code ----

  /** While `me` cleans, no other transaction touches a segment or the lock. */
  lemma CleanerUndisturbed(s: State, a: Action, me: nat)
    requires Inv(s) && Enabled(s, a) && me < |s.txs| && !Moves(a, me)
    ensures me < |Do(s, a).txs| && Do(s, a).txs[me] == s.txs[me]
    ensures Cleans(s.txs[me]) ==> Do(s, a).status == s.status && Do(s, a).freed == s.freed && Do(s, a).late == s.late
  {
    if Cleans(s.txs[me]) {
      forall u | 0 <= u < |s.txs| ensures !Holds(s.txs[u]) && (u != me ==> !Cleans(s.txs[u])) { CleanerIsAlone(s, me, u); }
    }
  }

  predicate Moves(a: Action, t: nat) {
    a != Begin && a.t == t
  }

  /** The statuses after a whole cleaning. */
  function Swept(status: seq<Status>, n: nat): (r: seq<Status>)
    requires n <= |status|
    ensures |r| == |status|
    ensures forall k :: 0 <= k < |r| ==> r[k] == if k < n && status[k] == ToBeDeleted then Deleted else status[k]
  {
    seq(|status|, k requires 0 <= k < |status| => if k < n && status[k] == ToBeDeleted then Deleted else status[k])
  }

  /** The times each segment has been freed after a whole cleaning. */
  function Tallied(freed: seq<nat>, status: seq<Status>, n: nat): (r: seq<nat>)
    requires n <= |status| == |freed|
    ensures |r| == |freed|
    ensures forall k :: 0 <= k < |r| ==> r[k] == freed[k] + if k < n && status[k] == ToBeDeleted then 1 else 0
  {
    seq(|freed|, k requires 0 <= k < |freed| => freed[k] + if k < n && status[k] == ToBeDeleted then 1 else 0)
  }

  lemma SweepMore(status: seq<Status>, freed: seq<nat>, i: nat)
    requires i < |status| == |freed|
    ensures var s, f := Swept(status, i), Tallied(freed, status, i);
            && Swept(status, i + 1) == (if s[i] == ToBeDeleted then s[i := Deleted] else s)
            && Tallied(freed, status, i + 1) == if s[i] == ToBeDeleted then f[i := f[i] + 1] else f
  {
  }

  /** From state `n` on, `t` has swept the segments as a whole: every marked one was freed once and
      deleted, and no other was touched. */
  ghost predicate SweptSince(run: seq<State>, maxSegments: nat, n: nat, t: nat)
  {
    exists a, b :: n <= a < b < |run| && SweptBetween(run, maxSegments, a, b, t)
  }

  /** From state `n` on, `t` has set the counter to zero while it still held the lock alone. */
  ghost predicate ResetSince(run: seq<State>, n: nat, t: nat)
  {
    exists k: nat :: n <= k < |run| && ResetAt(run, k, t)
  }

  ghost predicate ResetAt(run: seq<State>, k: nat, t: nat)
    requires k < |run|
  {
    t < |run[k].txs| && run[k].txs[t] == UnlockExclusive && run[k].counter == 0 && run[k].exclusive == Some(t)
  }

  ghost predicate SweptBetween(run: seq<State>, maxSegments: nat, a: nat, b: nat, t: nat)
    requires a < |run| && b < |run|
  {
    && t < |run[a].txs| && run[a].txs[t] == Scanning(0) && t < |run[b].txs| && run[b].txs[t] == Scanning(maxSegments)
    && |run[a].status| == |run[a].freed| == maxSegments
    && run[b].status == Swept(run[a].status, maxSegments)
    && run[b].freed == Tallied(run[a].freed, run[a].status, maxSegments) && run[b].late == run[a].late
  }

  /** At state `k` transaction `t` loaded the counter; it went on at once if it was not yet time, and
      swept otherwise. */
  ghost predicate CleanedIfTime(run: seq<State>, maxSegments: nat, k: nat, t: nat)
  {
    && k + 1 < |run| && t < |run[k].txs| && run[k].txs[t] == CheckTime && t < |run[k + 1].txs|
    && if run[k].counter < CLEANING_PERIOD then run[k + 1].txs[t] == TryShared && run[k + 1].freed == run[k].freed
       else SweptSince(run, maxSegments, k, t) && ResetSince(run, k, t)
  }

  lemma CleanedLater(run: seq<State>, run': seq<State>, maxSegments: nat, k: nat, t: nat)
    requires run <= run' && CleanedIfTime(run, maxSegments, k, t)
    ensures CleanedIfTime(run', maxSegments, k, t)
  {
    if run[k].counter >= CLEANING_PERIOD {
      var a, b :| k <= a < b < |run| && SweptBetween(run, maxSegments, a, b, t);
      assert SweptBetween(run', maxSegments, a, b, t);
      var h: nat :| k <= h < |run| && ResetAt(run, h, t);
      assert ResetAt(run', h, t);
    }
  }

  /** `freeing_lock` is held so that it cannot be taken: shared while somebody cleans, exclusively while
      anybody holds it. */
  predicate Busy(exclusively: bool, s: State) {
    s.exclusive.Some? || (exclusively && s.holders != 0)
  }

  /** The region with its freeing lock, counter and segment statuses.  Between two accesses of one
      transaction the others may do anything they can. */
  class TransactionalMemory {
    const maxSegments: nat
    var holders: int
    var exclusive: Option<nat>
    var counter: int
    var nsegments: nat
    var status: seq<Status>
    var txs: seq<Pc>
    var freed: seq<nat>
    var late: seq<nat>
    ghost var run: seq<State>

    function Now(): State
      reads this
    {
      State(holders, exclusive, counter, nsegments, status, txs, freed, late)
    }

    ghost predicate Valid()
      reads this
    {
      && IsRun(run, maxSegments) && run[|run| - 1] == Now()
      && |status| == |freed| == |late| == maxSegments
    }

    ghost predicate At(t: nat, pc: Pc)
      reads this
    {
      Valid() && t < |txs| && txs[t] == pc
    }

    constructor (maxSegments: nat)
      requires maxSegments > 0
      ensures Valid() && Now() == Initial(maxSegments) && this.maxSegments == maxSegments
    {
      this.maxSegments := maxSegments;
      holders, exclusive, counter, nsegments, txs := 0, None, 0, 1, [];
      status := seq(maxSegments, i => if i == 0 then InUse else Absent);
      freed := seq(maxSegments, i => 0);
      late := seq(maxSegments, i => 0);
      run := [Initial(maxSegments)];
    }

    /** Action `a` has just been taken. */
    ghost method Append(before: State, a: Action)
      requires IsRun(run, maxSegments) && run[|run| - 1] == before
      requires |before.status| == |before.freed| == |before.late| == maxSegments
      requires Enabled(before, a) && Now() == Do(before, a)
      modifies this`run
      ensures Valid() && run == old(run) + [Now()]
    {
      run := run + [Now()];
      forall i | 0 <= i < |run| - 1 ensures StepAt(run, i) {
        if i < |run| - 2 { assert StepAt(old(run), i); } else { assert run[i] == before; }
      }
      DoLengths(before, a);
    }

    method Move(a: Action)
      requires Valid() && Enabled(Now(), a)
      modifies this
      ensures Valid() && old(run) <= run && Now() == Do(old(Now()), a)
    {
      ghost var before := Now();
      var s := Do(Now(), a);
      holders, exclusive, counter, nsegments := s.holders, s.exclusive, s.counter, s.nsegments;
      status, txs, freed, late := s.status, s.txs, s.freed, s.late;
      Append(before, a);
    }

    /** Any number of actions of transactions other than `me`, among them new ones. */
    method Others(me: nat)
      requires Valid() && me < |txs|
      modifies this
      ensures Valid() && old(run) <= run && me < |txs| && txs[me] == old(txs)[me]
      ensures Cleans(txs[me]) ==> status == old(status) && freed == old(freed) && late == old(late)
    {
      var actions: nat := *;
      while actions > 0
        invariant Valid() && old(run) <= run && me < |txs| && txs[me] == old(txs)[me]
        invariant Cleans(txs[me]) ==> status == old(status) && freed == old(freed) && late == old(late)
      {
        var a: Action := *;
        if Enabled(Now(), a) && !Moves(a, me) {
          RunInv(run, maxSegments, |run| - 1);
          CleanerUndisturbed(Now(), a, me);
          Move(a);
        }
        actions := actions - 1;
      }
    }

    /** tm_begin (tm.cpp lines 99-105). */
    method TmBegin(patience: nat) returns (t: nat, begun: bool)
      requires Valid()
      modifies this
      ensures Valid() && old(run) <= run && |old(txs)| <= t < |txs|
      ensures begun ==> txs[t] == Live && holders == Count(txs, Holds) > 0
      ensures begun ==> exists k: nat :: |old(run)| <= k && CleanedIfTime(run, maxSegments, k, t)
      ensures !begun ==> GaveUp(run, |old(run)| - 1, patience, true, Busy) || GaveUp(run, |old(run)| - 1, patience, false, Busy)
    {
      t := |txs|;
      ghost var before := Now();
      txs := txs + [CheckTime];
      Append(before, Begin);
      ghost var was := run;
      begun := FreeMarkedSegmentsIfTime(t, patience);
      if !begun {
        GaveUpLater(run, run, |was| - 1, |old(run)| - 1, patience, true, Busy);
        return;
      }
      was := run;
      ghost var k: nat :| |old(run)| <= k && CleanedIfTime(run, maxSegments, k, t);
      begun := LockShared(t, patience);
      CleanedLater(was, run, maxSegments, k, t);
      if !begun {
        GaveUpLater(run, run, |was| - 1, |old(run)| - 1, patience, false, Busy);
        return;
      }
      LiveIsCounted(t);
    }

    lemma LiveIsCounted(t: nat)
      requires At(t, Live)
      ensures holders == Count(txs, Holds) > 0
    {
      RunInv(run, maxSegments, |run| - 1);
      CountBounds(txs, Holds);
    }

    /** free_marked_segments_if_time (TransactionalMemory.cpp lines 61-75). */
    method FreeMarkedSegmentsIfTime(t: nat, patience: nat) returns (done: bool)
      requires At(t, CheckTime)
      modifies this
      ensures Valid() && old(run) <= run && t < |txs|
      ensures done ==> txs[t] == TryShared && exists k: nat :: |old(run)| <= k + 1 && CleanedIfTime(run, maxSegments, k, t)
      ensures !done ==> GaveUp(run, |old(run)| - 1, patience, true, Busy)
    {
      ghost var k := LoadCounter(t);
      done := true;
      if txs[t] == TryExclusive {
        ghost var was := run;
        done := LockExclusive(t, patience);
        if done { Sweep(t); } else { GaveUpLater(run, run, |was| - 1, |old(run)| - 1, patience, true, Busy); }
      }
      assert done ==> CleanedIfTime(run, maxSegments, k, t);
    }

    /** Line 62. */
    method LoadCounter(t: nat) returns (ghost k: nat)
      requires At(t, CheckTime)
      modifies this
      ensures Valid() && old(run) <= run && t < |txs|
      ensures |old(run)| <= k + 1 && k == |run| - 2 && t < |run[k].txs| && run[k].txs[t] == CheckTime
      ensures txs[t] == if run[k].counter < CLEANING_PERIOD then TryShared else TryExclusive
      ensures freed == run[k].freed
    {
      Others(t);
      k := |run| - 1;
      ghost var before := Now();
      txs := txs[t := if counter < CLEANING_PERIOD then TryShared else TryExclusive];
      Append(before, Step(t));
    }

    /** Line 64. */
    method LockExclusive(t: nat, patience: nat) returns (locked: bool)
      requires At(t, TryExclusive)
      modifies this
      ensures old(run) <= run && At(t, if locked then Scanning(0) else TryExclusive)
      ensures !locked ==> GaveUp(run, |old(run)| - 1, patience, true, Busy)
    {
      var turns := 0;
      locked := false;
      ghost var n := |run| - 1;
      NoTurns(run, n, true, Busy);
      while !locked && turns < patience
        invariant old(run) <= run && At(t, if locked then Scanning(0) else TryExclusive)
        invariant turns <= patience && (!locked ==> GaveUp(run, n, turns, true, Busy))
        decreases !locked, patience - turns
      {
        ghost var was := run;
        Others(t);
        ghost var before, k := Now(), |run| - 1;
        locked := holders == 0 && exclusive == None;
        if locked {
          exclusive := Some(t);
          txs := txs[t := Scanning(0)];
        }
        Append(before, Step(t));
        if !locked { OneMoreTurn(was, run, n, turns, k, true, Busy); }
        turns := turns + 1;
      }
    }

    /** Lines 66-74. */
    method Sweep(t: nat)
      requires At(t, Scanning(0))
      modifies this
      ensures old(run) <= run && At(t, TryShared) && exclusive == None
      ensures SweptSince(run, maxSegments, |old(run)| - 1, t) && ResetSince(run, |old(run)| - 1, t)
    {
      ghost var a := |run| - 1;
      SweepAll(t);
      ghost var b := |run| - 1;
      assert SweptBetween(run, maxSegments, a, b, t);
      ghost var before := Now();
      txs := txs[t := ResetCounter];
      Append(before, Step(t));
      ghost var k := Unlock(t);
      assert SweptBetween(run, maxSegments, a, b, t) && ResetAt(run, k, t);
    }

    /** The loop: every marked segment is freed once and set to deleted, no other is touched. */
    method SweepAll(t: nat)
      requires At(t, Scanning(0))
      modifies this
      ensures old(run) <= run && At(t, Scanning(maxSegments)) && late == old(late)
      ensures status == Swept(old(status), maxSegments) && freed == Tallied(old(freed), old(status), maxSegments)
    {
      var i := 0;
      while i < maxSegments
        invariant 0 <= i <= maxSegments && old(run) <= run && At(t, Scanning(i)) && late == old(late)
        invariant status == Swept(old(status), i) && freed == Tallied(old(freed), old(status), i)
      {
        SweepNext(t, i, old(status), old(freed));
        i := i + 1;
      }
      Others(t);
    }

    method SweepNext(t: nat, i: nat, ghost was: seq<Status>, ghost tally: seq<nat>)
      requires At(t, Scanning(i)) && i < maxSegments == |was| == |tally|
      requires status == Swept(was, i) && freed == Tallied(tally, was, i)
      modifies this
      ensures old(run) <= run && At(t, Scanning(i + 1)) && late == old(late)
      ensures status == Swept(was, i + 1) && freed == Tallied(tally, was, i + 1)
    {
      SweepMore(was, tally, i);
      SweepOne(t, i);
    }

    /** Lines 67-71. */
    method SweepOne(t: nat, i: nat)
      requires At(t, Scanning(i)) && i < maxSegments
      modifies this
      ensures old(run) <= run && At(t, Scanning(i + 1)) && late == old(late)
      ensures status == if old(status)[i] == ToBeDeleted then old(status)[i := Deleted] else old(status)
      ensures freed == if old(status)[i] == ToBeDeleted then old(freed)[i := old(freed)[i] + 1] else old(freed)
    {
      Others(t);
      CleanOne(t, i);
    }

    method CleanOne(t: nat, i: nat)
      requires At(t, Scanning(i)) && i < maxSegments
      modifies this
      ensures old(run) <= run && At(t, Scanning(i + 1)) && late == old(late)
      ensures status == if old(status)[i] == ToBeDeleted then old(status)[i := Deleted] else old(status)
      ensures freed == if old(status)[i] == ToBeDeleted then old(freed)[i := old(freed)[i] + 1] else old(freed)
    {
      ghost var before := Now();
      if status[i] == ToBeDeleted {
        freed := freed[i := freed[i] + 1];
        status := status[i := Deleted];
      }
      txs := txs[t := Scanning(i + 1)];
      Append(before, Step(t));
    }

    /** Lines 73-74. */
    method Unlock(t: nat) returns (ghost k: nat)
      requires At(t, ResetCounter)
      modifies this
      ensures old(run) <= run && At(t, TryShared) && exclusive == None
      ensures |old(run)| <= k < |run| && ResetAt(run, k, t)
    {
      Others(t);
      ghost var before := Now();
      counter := 0;
      txs := txs[t := UnlockExclusive];
      Append(before, Step(t));
      k := |run| - 1;
      CleanerHolds(t);
      Others(t);
      before := Now();
      exclusive := None;
      txs := txs[t := TryShared];
      Append(before, Step(t));
    }

    lemma CleanerHolds(t: nat)
      requires Valid() && t < |txs| && Cleans(txs[t])
      ensures exclusive == Some(t)
    {
      RunInv(run, maxSegments, |run| - 1);
    }

    /** tm.cpp line 102. */
    method LockShared(t: nat, patience: nat) returns (locked: bool)
      requires At(t, TryShared)
      modifies this
      ensures old(run) <= run && At(t, if locked then Live else TryShared)
      ensures !locked ==> GaveUp(run, |old(run)| - 1, patience, false, Busy)
    {
      var turns := 0;
      locked := false;
      ghost var n := |run| - 1;
      NoTurns(run, n, false, Busy);
      while !locked && turns < patience
        invariant old(run) <= run && At(t, if locked then Live else TryShared)
        invariant turns <= patience && (!locked ==> GaveUp(run, n, turns, false, Busy))
        decreases !locked, patience - turns
      {
        ghost var was := run;
        Others(t);
        ghost var before, k := Now(), |run| - 1;
        locked := exclusive == None;
        if locked {
          holders := holders + 1;
          txs := txs[t := Live];
        }
        Append(before, Step(t));
        if !locked { OneMoreTurn(was, run, n, turns, k, false, Busy); }
        turns := turns + 1;
      }
    }

    /** At state `k` transaction `t` gave back its share of the lock. */
    ghost predicate ReleasedAt(k: nat, t: nat)
      reads this
    {
      && k + 1 < |run| && t < |run[k].txs| && run[k].txs[t] == Live
      && t < |run[k + 1].txs| && run[k + 1].txs[t] == Counting && run[k + 1].holders == run[k].holders - 1
    }

    /** tm_end (tm.cpp lines 112-120), from clean_up on: the lock is released first, then the end counted. */
    method TmEnd(t: nat)
      requires At(t, Live)
      modifies this
      ensures old(run) <= run && At(t, Gone)
      ensures exists k :: |old(run)| <= k + 1 < |run| - 1 && ReleasedAt(k, t)
      ensures |run| > 1 && counter == run[|run| - 2].counter + 1 && holders == run[|run| - 2].holders
    {
      Others(t);
      ghost var k := |run| - 1;
      ghost var before := Now();
      holders := holders - 1;
      txs := txs[t := Counting];
      Append(before, End(t));
      assert ReleasedAt(k, t);
      CountEnd(t);
      assert ReleasedAt(k, t);
    }

    /** Line 117. */
    method CountEnd(t: nat)
      requires At(t, Counting)
      modifies this
      ensures old(run) <= run && |old(run)| < |run| && At(t, Gone)
      ensures counter == run[|run| - 2].counter + 1 && holders == run[|run| - 2].holders
    {
      Others(t);
      ghost var before := Now();
      counter := counter + 1;
      txs := txs[t := Gone];
      Append(before, Step(t));
    }

    /** tm_alloc (tm.cpp lines 167-178): nobody else gets this index. */
    method TmAlloc(t: nat) returns (seg: nat)
      requires At(t, Live) && nsegments < maxSegments
      modifies this
      ensures old(run) <= run && At(t, Live)
      ensures seg == old(nsegments) < maxSegments && status[seg] == InUse && old(status)[seg] == Absent
    {
      RunInv(run, maxSegments, |run| - 1);
      assert SegmentFits(Now(), nsegments);
      seg := nsegments;
      ghost var before := Now();
      nsegments := nsegments + 1;
      txs := txs[t := Allocating(seg)];
      Append(before, Alloc(t));
      StoreInUse(t, seg);
    }

    method StoreInUse(t: nat, seg: nat)
      requires At(t, Allocating(seg))
      modifies this
      ensures old(run) <= run && At(t, Live) && seg < maxSegments && status[seg] == InUse
    {
      Others(t);
      RunInv(run, maxSegments, |run| - 1);
      assert Drawn(Now(), t);
      ghost var before := Now();
      status := status[seg := InUse];
      txs := txs[t := Live];
      Append(before, Step(t));
    }

    /** tm_free (tm.cpp lines 186-191): the segment is only marked. */
    method TmFree(t: nat, seg: nat)
      requires At(t, Live) && seg < maxSegments && status[seg] != Absent
      modifies this
      ensures old(run) <= run && At(t, Live)
      ensures status == old(status)[seg := ToBeDeleted] && freed == old(freed)
      ensures old(status)[seg] != Deleted ==> late == old(late)
    {
      ghost var before := Now();
      if status[seg] == Deleted { late := late[seg := late[seg] + 1]; }
      status := status[seg := ToBeDeleted];
      Append(before, Free(t, seg));
    }
  }
}
