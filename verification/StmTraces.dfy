/** Failed commits, lock balance, and witness runs of the machine. */
module StmTraces {
  import opened Options
  import opened SharedMemory
  import opened Stm
  import opened StmInvariant
  import opened StmSteps
  import opened StmTheorems

  // ---- Failed commits ----

  /** A run together with the action of each of its steps. */
  ghost predicate IsTrace(run: seq<State>, acts: seq<Action>) {
    && |run| == |acts| + 1
    && run[0] == Initial()
    && forall k :: 0 <= k < |acts| ==> Enabled(run[k], acts[k]) && run[k + 1] == Do(run[k], acts[k])
  }

  lemma TraceIsRun(run: seq<State>, acts: seq<Action>)
    requires IsTrace(run, acts)
    ensures IsRun(run)
  {
    forall k | 0 <= k < |run| - 1 ensures StepAt(run, k) {
      assert Enabled(run[k], acts[k]);
    }
  }

  lemma {:induction false} FailedWasNeverDecided(run: seq<State>, i: nat, j: nat, t: Tid)
    requires EffectRun(run) && i <= j < |run| && t < |run[i].txs|
    requires t < |run[j].txs| && Failed(run[j].txs[t])
    ensures !Decided(run[i].txs[t])
    decreases j - i
  {
    if i < j {
      assert EffectAt(run, i);
      FailedWasNeverDecided(run, i + 1, j, t);
    }
  }

  /** A transaction that fails, in a read, in `try_lock` or in validation, never changed a word or a
      version in any of its steps, and when it has ended it holds no lock. */
  lemma FailedLeavesNoTrace(run: seq<State>, acts: seq<Action>, j: nat, t: Tid, k: nat, l: Loc)
    requires IsTrace(run, acts) && j < |run| && t < |run[j].txs| && Failed(run[j].txs[t])
    requires k < j && Mover(run[k], acts[k]) == t
    ensures run[k + 1].cells[l].val == run[k].cells[l].val
    ensures run[k + 1].cells[l].version == run[k].cells[l].version
    ensures run[j].txs[t].pc.Finished? ==> run[j].txs[t].lockedSet == {} && run[j].cells[l].owner != Some(t)
  {
    TraceIsRun(run, acts);
    RunInv(run, j);
    assert TxInv(run[j], t);
    if acts[k].Tau? {
      RunEffects(run);
      FailedWasNeverDecided(run, k, j, t);
      RunInv(run, k);
      assert TxInv(run[k], t);
      assert Do(run[k], acts[k]) == DoTau(run[k], t);
      UndecidedStep(run[k], t, l);
    }
  }

  lemma UndecidedStep(s: State, t: Tid, l: Loc)
    requires Enabled(s, Tau(t)) && TxInv(s, t) && !Decided(s.txs[t])
    ensures DoTau(s, t).cells[l].val == s.cells[l].val
    ensures DoTau(s, t).cells[l].version == s.cells[l].version
  {
  }

  // ---- Each lock taken is released exactly once ----

  ghost function Acquired(run: seq<State>, j: nat, t: Tid, l: Loc): nat
    requires j < |run|
  {
    if j == 0 then 0
    else
      Acquired(run, j - 1, t, l) +
      if run[j - 1].cells[l].owner != Some(t) && run[j].cells[l].owner == Some(t) then 1 else 0
  }

  ghost function Released(run: seq<State>, j: nat, t: Tid, l: Loc): nat
    requires j < |run|
  {
    if j == 0 then 0
    else
      Released(run, j - 1, t, l) +
      if run[j - 1].cells[l].owner == Some(t) && run[j].cells[l].owner != Some(t) then 1 else 0
  }

  predicate Releasing(x: Tx) {
    x.pc.Unlocking? || x.pc.UnlockStore? || x.pc.Finished?
  }

  lemma OwnerMoves(s: State, a: Action, t: Tid, l: Loc)
    requires Inv(s) && Enabled(s, a)
    ensures s.cells[l].owner != Some(t) && Do(s, a).cells[l].owner == Some(t) ==>
              t < |s.txs| && !Releasing(s.txs[t])
    ensures s.cells[l].owner == Some(t) && Do(s, a).cells[l].owner != Some(t) ==>
              t < |Do(s, a).txs| && Releasing(Do(s, a).txs[t])
    ensures t < |s.txs| ==> t < |Do(s, a).txs| && (Releasing(s.txs[t]) ==> Releasing(Do(s, a).txs[t]))
  {
    var u := Mover(s, a);
    DoOk(s, a);
    assert Effect(s, Do(s, a), u);
    if a.Tau? && u == t { OwnLockMove(s, t, l); }
  }

  lemma OwnLockMove(s: State, t: Tid, l: Loc)
    requires Enabled(s, Tau(t))
    ensures |DoTau(s, t).txs| == |s.txs|
    ensures DoTau(s, t).cells[l].owner != s.cells[l].owner ==>
              if DoTau(s, t).cells[l].owner == Some(t) then !Releasing(s.txs[t]) else Releasing(DoTau(s, t).txs[t])
    ensures Releasing(s.txs[t]) ==> Releasing(DoTau(s, t).txs[t])
  {
    match s.txs[t].pc {
      case TryCas(_, _) =>
      case UnlockStore(_, _, _) =>
      case Unlocking(_, _) =>
      case _ =>
    }
  }

  /** However often the write set repeats a word, its lock is taken at most once by a transaction, and
      every lock taken is given back exactly once by the time the transaction ends. */
  lemma {:induction false} LockBalance(run: seq<State>, acts: seq<Action>, j: nat, t: Tid, l: Loc)
    requires IsTrace(run, acts) && j < |run|
    ensures Acquired(run, j, t, l) == Released(run, j, t, l) + if run[j].cells[l].owner == Some(t) then 1 else 0
    ensures Acquired(run, j, t, l) <= 1
    ensures Acquired(run, j, t, l) == 1 && run[j].cells[l].owner != Some(t) ==>
              t < |run[j].txs| && Releasing(run[j].txs[t])
    ensures t < |run[j].txs| && run[j].txs[t].pc.Finished? ==>
              Acquired(run, j, t, l) == Released(run, j, t, l) <= 1
  {
    TraceIsRun(run, acts);
    if j > 0 {
      LockBalance(run, acts, j - 1, t, l);
      RunInv(run, j - 1);
      OwnerMoves(run[j - 1], acts[j - 1], t, l);
      assert run[j - 1 + 1] == Do(run[j - 1], acts[j - 1]);
    }
    EndedOwnsNothing(run, j, t, l);
  }

  lemma EndedOwnsNothing(run: seq<State>, j: nat, t: Tid, l: Loc)
    requires IsRun(run) && j < |run|
    ensures t < |run[j].txs| && run[j].txs[t].pc.Finished? ==> run[j].cells[l].owner != Some(t)
  {
    RunInv(run, j);
    if t < |run[j].txs| { assert TxInv(run[j], t); }
  }

  // ---- Witness runs ----

  ghost function Last(run: seq<State>): State
    requires |run| > 0
  {
    run[|run| - 1]
  }

  lemma Go(run: seq<State>, a: Action) returns (r: seq<State>)
    requires IsRun(run) && Enabled(Last(run), a)
    ensures IsRun(r) && Last(r) == Do(Last(run), a) && run <= r
  {
    r := run + [Do(Last(run), a)];
    forall i | 0 <= i < |r| - 1 ensures StepAt(r, i) {
      if i < |run| - 1 { assert StepAt(run, i); } else { assert r[i] == Last(run); }
    }
  }

  /** Transaction 0 has written 1 to `l` in its redo log and drawn version 1 with the lock held. */
  ghost function Drawn(l: Loc): Tx {
    Tx(false, 0, 1, [], [Write(l, 1)], {l}, Publishing(0), [Store(l, 1)])
  }

  ghost function DrawnState(l: Loc): State {
    State(1, 1, FreshCells()[l := Cell(0, 0, true, Some(0))], [Drawn(l)],
          map[1 := Commit(0, [Write(l, 1)], [Store(l, 1)])])
  }

  lemma RunToDrawn(l: Loc) returns (r: seq<State>)
    ensures IsRun(r) && Last(r) == DrawnState(l)
  {
    r := RunToLocked(l);
    r := Go(r, Tau(0));
    assert {} + {l} == {l};
    assert Last(r).txs == [Tx(false, 0, -1, [], [Write(l, 1)], {l}, Locking(1), [Store(l, 1)])];
    r := Go(r, Tau(0));
    r := Go(r, Tau(0));
    assert Last(r).txs == [Drawn(l)];
  }

  /** The copy condition cannot be dropped: here a read-only transaction begins at version 1, copies
      `l` while the writer of version 1 still holds it, finds it released and old at the check, and
      commits having read 0, though the memory at version 1 holds 1. */
  lemma StaleReadOnlyRun(l: Loc) returns (r: seq<State>)
    ensures IsRun(r) && |Last(r).txs| == 2
    ensures var x := Last(r).txs[1];
            && Committed(x) && x.ro && x.rv == 1
            && x.ops == [Read(l, 0, Some(0))]
            && SerialMem(Last(r).log, 1)[l] == 1
            && !Legal(x.ops, SerialMem(Last(r).log, x.rv))
  {
    r := RunToDrawn(l);
    r := Go(r, Begin(true));
    r := Go(r, Invoke(1, ReadWord(l)));
    r := Go(r, Tau(1));
    assert Last(r).txs[1] == Tx(true, 1, -1, [], [], {}, RoCheck(l, 0, Some(0), 0), []);
    r := PublishAndRelease(r, l);
    r := Go(r, Tau(1));
    assert Last(r).txs[1] == Tx(true, 1, -1, [l], [], {}, Idle, [Read(l, 0, Some(0))]);
    r := Go(r, Invoke(1, End));
    var s := Last(r);
    var ops := [Store(l, 1)];
    assert s.log[1].ops == ops && ops[..0] == [];
    assert SerialMem(s.log, 1) == RunOps(ops, SerialMem(s.log, 0)) == Zeroed()[l := 1];
    assert s.txs[1].ops[..0] == [];
    assert RunOps(s.txs[1].ops[..0], SerialMem(s.log, 1))[l] == 1;
  }

  lemma PublishAndRelease(run: seq<State>, l: Loc) returns (r: seq<State>)
    requires IsRun(run) && |Last(run).txs| == 2 && Last(run).txs[0] == Drawn(l)
    requires Last(run).cells[l] == Cell(0, 0, true, Some(0))
    ensures IsRun(r) && |Last(r).txs| == 2 && Last(r).txs[1] == Last(run).txs[1]
    ensures Last(r).cells[l] == Cell(1, 1, false, None)
    ensures Last(r).log == Last(run).log
  {
    r := Go(run, Tau(0));
    r := Go(r, Tau(0));
    r := Go(r, Tau(0));
    assert Last(r).cells[l] == Cell(1, 1, true, Some(0)) && Last(r).txs[0] == Drawn(l).(pc := Publishing(1));
    r := Go(r, Tau(0));
    assert Last(r).txs[0] == Drawn(l).(pc := Unlocking(0, true)) && Last(r).cells[l] == Cell(1, 1, true, Some(0));
    r := Release(r, l);
  }

  lemma Release(run: seq<State>, l: Loc) returns (r: seq<State>)
    requires IsRun(run) && |Last(run).txs| == 2 && Last(run).txs[0] == Drawn(l).(pc := Unlocking(0, true))
    requires Last(run).cells[l] == Cell(1, 1, true, Some(0))
    ensures IsRun(r) && |Last(r).txs| == 2 && Last(r).txs[1] == Last(run).txs[1]
    ensures Last(r).cells[l] == Cell(1, 1, false, None)
    ensures Last(r).log == Last(run).log
  {
    r := Go(run, Tau(0));
    r := Go(r, Tau(0));
  }

  /** Skipping can beat a scan: transaction 1 commits although the word it read is locked by another
      transaction at that moment, so that a full scan would have made it fail. */
  lemma SkipBeatsScanRun(l: Loc, m: Loc) returns (r: seq<State>)
    requires l != m
    ensures IsRun(r) && |Last(r).txs| == 2
    ensures var x := Last(r).txs[1];
            && Decided(x) && x.readSet == [l] && l !in x.lockedSet
            && Last(r).cells[l].locked
            && x.wv == x.rv + 1
            && DoValidating(Put(Last(r), 1, x.(pc := Validating(0))), 1).txs[1].pc == Unlocking(0, false)
  {
    r := RunToLocked(l);
    r := Go(r, Begin(false));
    r := RivalReads(r, l);
    r := Go(r, Tau(0));
    assert Last(r).cells[l].locked;
    r := RivalCommits(r, l, m);
  }

  lemma RunToLocked(l: Loc) returns (r: seq<State>)
    ensures IsRun(r)
    ensures Last(r) == State(0, 1, FreshCells(),
                             [Tx(false, 0, -1, [], [Write(l, 1)], {}, TryCas(0, 0), [Store(l, 1)])], map[])
  {
    r := [Initial()];
    r := Go(r, Begin(false));
    assert Last(r).txs == [NewTx(Initial(), false)];
    r := Go(r, Invoke(0, WriteWord(l, 1)));
    assert [] + [Write(l, 1)] == [Write(l, 1)] && [] + [Store(l, 1)] == [Store(l, 1)];
    assert Last(r).txs == [Tx(false, 0, -1, [], [Write(l, 1)], {}, Idle, [Store(l, 1)])];
    r := Go(r, Invoke(0, End));
    r := Go(r, Tau(0));
    assert Last(r).txs == [Tx(false, 0, -1, [], [Write(l, 1)], {}, TryCas(0, 0), [Store(l, 1)])];
  }

  lemma RivalReads(run: seq<State>, l: Loc) returns (r: seq<State>)
    requires IsRun(run) && |Last(run).txs| == 2 && Last(run).cells == FreshCells() && Last(run).clock == 0
    requires Last(run).txs[1] == Tx(false, 0, -1, [], [], {}, Idle, [])
    ensures IsRun(r) && |Last(r).txs| == 2 && Last(r).cells == Last(run).cells && Last(r).clock == 0
    ensures Last(r).txs[0] == Last(run).txs[0] && Last(r).log == Last(run).log
    ensures Last(r).txs[1] == Tx(false, 0, -1, [l], [], {}, Idle, [Read(l, 0, None)])
  {
    r := Go(run, Invoke(1, ReadWord(l)));
    r := Go(r, Tau(1));
    r := Go(r, Tau(1));
  }

  lemma RivalCommits(run: seq<State>, l: Loc, m: Loc) returns (r: seq<State>)
    requires IsRun(run) && |Last(run).txs| == 2 && Last(run).clock == 0 && l != m
    requires Last(run).cells[l].locked && Last(run).cells[m] == Cell(0, 0, false, None)
    requires Last(run).txs[1] == Tx(false, 0, -1, [l], [], {}, Idle, [Read(l, 0, None)])
    ensures IsRun(r) && |Last(r).txs| == 2
    ensures Last(r).cells[l] == Last(run).cells[l]
    ensures Last(r).txs[1] == Tx(false, 0, 1, [l], [Write(m, 2)], {m}, Publishing(0), [Read(l, 0, None), Store(m, 2)])
  {
    r := RivalEnds(run, m);
    r := Go(r, Tau(1));
    r := Go(r, Tau(1));
    r := Go(r, Tau(1));
    r := Go(r, Tau(1));
  }

  lemma RivalEnds(run: seq<State>, m: Loc) returns (r: seq<State>)
    requires IsRun(run) && |Last(run).txs| == 2 && Last(run).txs[1].pc.Idle? && !Last(run).txs[1].ro
    ensures IsRun(r)
    ensures Last(r) == Put(Last(run), 1, Last(run).txs[1].(
                             writeSet := Last(run).txs[1].writeSet + [Write(m, 2)],
                             ops := Last(run).txs[1].ops + [Store(m, 2)],
                             pc := Locking(0)))
  {
    r := Go(run, Invoke(1, WriteWord(m, 2)));
    r := Go(r, Invoke(1, End));
  }

  // ---- A torn read ----

  /** Transaction 0 has written 1 to `l` and to `m` in its redo log and stands at `pc`. */
  ghost function Pair(l: Loc, m: Loc, wv: int, locks: set<Loc>, pc: Pc): Tx {
    Tx(false, 0, wv, [], [Write(l, 1), Write(m, 1)], locks, pc, [Store(l, 1), Store(m, 1)])
  }

  lemma RunToPair(l: Loc, m: Loc) returns (r: seq<State>)
    ensures IsRun(r) && Last(r) == State(0, 1, FreshCells(), [Pair(l, m, -1, {}, Locking(0))], map[])
  {
    r := [Initial()];
    r := Go(r, Begin(false));
    assert Last(r).txs == [NewTx(Initial(), false)];
    r := Go(r, Invoke(0, WriteWord(l, 1)));
    assert [] + [Write(l, 1)] == [Write(l, 1)] && [] + [Store(l, 1)] == [Store(l, 1)];
    r := Go(r, Invoke(0, WriteWord(m, 1)));
    assert [Write(l, 1)] + [Write(m, 1)] == [Write(l, 1), Write(m, 1)];
    assert [Store(l, 1)] + [Store(m, 1)] == [Store(l, 1), Store(m, 1)];
    assert Last(r).txs == [Pair(l, m, -1, {}, Idle)];
    r := Go(r, Invoke(0, End));
    assert Last(r).txs == [Pair(l, m, -1, {}, Locking(0))];
  }

  ghost function PairLog(l: Loc, m: Loc): map<nat, Commit> {
    map[1 := Commit(0, [Write(l, 1), Write(m, 1)], [Store(l, 1), Store(m, 1)])]
  }

  lemma LockPair(run: seq<State>, l: Loc, m: Loc) returns (r: seq<State>)
    requires IsRun(run) && l != m
    requires Last(run) == State(0, 1, FreshCells(), [Pair(l, m, -1, {}, Locking(0))], map[])
    ensures IsRun(r)
    ensures Last(r).clock == 0 && Last(r).log == map[] && Last(r).txs == [Pair(l, m, -1, {l, m}, Locking(2))]
    ensures Last(r).cells[l] == Last(r).cells[m] == Cell(0, 0, true, Some(0))
  {
    r := Go(run, Tau(0));
    r := Go(r, Tau(0));
    assert {} + {l} == {l};
    assert Last(r).txs == [Pair(l, m, -1, {l}, Locking(1))];
    r := Go(r, Tau(0));
    assert Last(r).txs == [Pair(l, m, -1, {l}, TryCas(1, 0))];
    r := Go(r, Tau(0));
    assert {l} + {m} == {l, m};
    assert Last(r).txs == [Pair(l, m, -1, {l, m}, Locking(2))];
  }

  lemma DrawPair(run: seq<State>, l: Loc, m: Loc) returns (r: seq<State>)
    requires IsRun(run) && Last(run).clock == 0 && Last(run).log == map[]
    requires Last(run).txs == [Pair(l, m, -1, {l, m}, Locking(2))]
    ensures IsRun(r) && Last(r).cells == Last(run).cells && Last(r).clock == 1
    ensures Last(r).txs == [Pair(l, m, 1, {l, m}, Publishing(0))] && Last(r).log == PairLog(l, m)
  {
    r := Go(run, Tau(0));
    assert Last(r).txs == [Pair(l, m, -1, {l, m}, Tick)];
    r := Go(r, Tau(0));
    assert Last(r).txs == [Pair(l, m, 1, {l, m}, Publishing(0))];
  }

  /** Write `i` of transaction 0 is copied to memory and given its version. */
  lemma PublishOne(run: seq<State>, l: Loc, m: Loc, i: nat) returns (r: seq<State>)
    requires IsRun(run) && i < 2 && |Last(run).txs| == 2
    requires Last(run).txs[0] == Pair(l, m, 1, {l, m}, Publishing(i))
    requires Last(run).cells[if i == 0 then l else m] == Cell(0, 0, true, Some(0))
    ensures IsRun(r) && |Last(r).txs| == 2 && Last(r).txs[1] == Last(run).txs[1] && Last(r).log == Last(run).log
    ensures Last(r).txs[0] == Pair(l, m, 1, {l, m}, Publishing(i + 1))
    ensures Last(r).cells == Last(run).cells[if i == 0 then l else m := Cell(1, 1, true, Some(0))]
  {
    r := Go(run, Tau(0));
    assert Last(r).txs[0] == Pair(l, m, 1, {l, m}, VersionLoad(i));
    r := Go(r, Tau(0));
    assert Last(r).txs[0] == Pair(l, m, 1, {l, m}, VersionStore(i, true));
    r := Go(r, Tau(0));
    assert Last(r).txs[0] == Pair(l, m, 1, {l, m}, Publishing(i + 1));
  }

  /** The lock of write `i` is released. */
  lemma ReleaseOne(run: seq<State>, l: Loc, m: Loc, i: nat, locks: set<Loc>) returns (r: seq<State>)
    requires IsRun(run) && i < 2 && |Last(run).txs| == 2
    requires Last(run).txs[0] == Pair(l, m, 1, locks, Unlocking(i, true)) && (if i == 0 then l else m) in locks
    requires Last(run).cells[if i == 0 then l else m] == Cell(1, 1, true, Some(0))
    ensures IsRun(r) && |Last(r).txs| == 2 && Last(r).txs[1] == Last(run).txs[1] && Last(r).log == Last(run).log
    ensures Last(r).txs[0] == Pair(l, m, 1, locks - {if i == 0 then l else m}, Unlocking(i + 1, true))
    ensures Last(r).cells == Last(run).cells[if i == 0 then l else m := Cell(1, 1, false, None)]
  {
    r := Go(run, Tau(0));
    assert Last(r).txs[0] == Pair(l, m, 1, locks, UnlockStore(i, 1, true));
    r := Go(r, Tau(0));
  }

  lemma PublishPair(run: seq<State>, l: Loc, m: Loc) returns (r: seq<State>)
    requires IsRun(run) && l != m && |Last(run).txs| == 2
    requires Last(run).txs[0] == Pair(l, m, 1, {l, m}, Publishing(0))
    requires Last(run).cells[l] == Last(run).cells[m] == Cell(0, 0, true, Some(0))
    ensures IsRun(r) && |Last(r).txs| == 2 && Last(r).txs[1] == Last(run).txs[1] && Last(r).log == Last(run).log
    ensures Last(r).cells[l] == Last(r).cells[m] == Cell(1, 1, false, None)
  {
    r := PublishOne(run, l, m, 0);
    r := PublishOne(r, l, m, 1);
    r := Go(r, Tau(0));
    assert Last(r).txs[0] == Pair(l, m, 1, {l, m}, Unlocking(0, true));
    r := ReleaseOne(r, l, m, 0, {l, m});
    r := ReleaseOne(r, l, m, 1, {l, m} - {l});
  }

  /** The torn reader: it has copied `l` before, checks it now, and reads `m` afterwards. */
  lemma ReadRest(run: seq<State>, l: Loc, m: Loc) returns (r: seq<State>)
    requires IsRun(run) && |Last(run).txs| == 2
    requires Last(run).cells[l] == Last(run).cells[m] == Cell(1, 1, false, None)
    requires Last(run).txs[1] == Tx(true, 1, -1, [], [], {}, RoCheck(l, 0, Some(0), 0), [])
    ensures IsRun(r) && |Last(r).txs| == 2 && Last(r).log == Last(run).log
    ensures Last(r).txs[1] == Tx(true, 1, -1, [l, m], [], {}, Finished(true), [Read(l, 0, Some(0)), Read(m, 1, None)])
  {
    r := Go(run, Tau(1));
    assert Last(r).txs[1] == Tx(true, 1, -1, [l], [], {}, Idle, [Read(l, 0, Some(0))]);
    r := Go(r, Invoke(1, ReadWord(m)));
    r := Go(r, Tau(1));
    assert Last(r).txs[1] == Tx(true, 1, -1, [l], [], {}, RoCheck(m, 1, None, 0), [Read(l, 0, Some(0))]);
    r := Go(r, Tau(1));
    assert [l] + [m] == [l, m] && [Read(l, 0, Some(0))] + [Read(m, 1, None)] == [Read(l, 0, Some(0)), Read(m, 1, None)];
    r := Go(r, Invoke(1, End));
  }

  /** Without the copy condition a committed read-only transaction can even see a memory that no serial
      execution produces: one transaction writes 1 to both words, and the reader sees 0 and 1. */
  lemma TornReadOnlyRun(l: Loc, m: Loc) returns (r: seq<State>)
    requires l != m
    ensures IsRun(r) && |Last(r).txs| == 2
    ensures var x := Last(r).txs[1];
            && Committed(x) && x.ro
            && (forall k :: 0 <= k < |x.ops| ==> x.ops[k].Read?)
            && forall v: nat :: !Legal(x.ops, SerialMem(Last(r).log, v))
  {
    r := RunToPair(l, m);
    r := LockPair(r, l, m);
    r := DrawPair(r, l, m);
    r := Go(r, Begin(true));
    r := Go(r, Invoke(1, ReadWord(l)));
    r := Go(r, Tau(1));
    assert Last(r).txs[1] == Tx(true, 1, -1, [], [], {}, RoCheck(l, 0, Some(0), 0), []);
    r := PublishPair(r, l, m);
    r := ReadRest(r, l, m);
    forall v: nat ensures !Legal(Last(r).txs[1].ops, SerialMem(Last(r).log, v)) { TornIsIllegal(l, m, v); }
  }

  lemma {:induction false} PairMemory(l: Loc, m: Loc, v: nat)
    requires l != m
    ensures SerialMem(PairLog(l, m), v)[l] == SerialMem(PairLog(l, m), v)[m]
  {
    if v > 0 {
      PairMemory(l, m, v - 1);
      if v == 1 {
        var ops := [Store(l, 1), Store(m, 1)];
        assert ops[..1] == [Store(l, 1)] && ops[..1][..0] == [];
        assert RunOps(ops[..1], Zeroed()) == Zeroed()[l := 1];
      }
    }
  }

  lemma TornIsIllegal(l: Loc, m: Loc, v: nat)
    requires l != m
    ensures !Legal([Read(l, 0, Some(0)), Read(m, 1, None)], SerialMem(PairLog(l, m), v))
  {
    var ops := [Read(l, 0, Some(0)), Read(m, 1, None)];
    var mem := SerialMem(PairLog(l, m), v);
    PairMemory(l, m, v);
    assert ops[..0] == [] && ops[..1] == [ops[0]] && ops[..1][..0] == [];
    assert RunOps(ops[..0], mem)[l] == mem[l] && RunOps(ops[..1], mem)[m] == mem[m];
    assert ops[0].Read? && ops[1].Read?;
  }
}
