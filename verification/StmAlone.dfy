/** When operations must succeed: a transaction that nobody disturbs fails only by reading, in a read-write
    transaction, a word that was overwritten before. */
module StmAlone {
  import opened Options
  import opened SharedMemory
  import opened Stm
  import opened StmInvariant
  import opened StmSteps
  import opened StmTheorems

  ghost predicate MovesAt(run: seq<State>, k: nat, t: Tid)
    requires k + 1 < |run|
  {
    exists a :: Enabled(run[k], a) && Mover(run[k], a) == t && run[k + 1] == Do(run[k], a)
  }

  /** From state `i` to state `j` only `t` moves. */
  ghost predicate Alone(run: seq<State>, i: nat, j: nat, t: Tid) {
    i <= j < |run| && forall k {:trigger MovesAt(run, k, t)} :: i <= k < j ==> MovesAt(run, k, t)
  }

  /** Between two operations of `t`, when no word is locked and nothing it has read has been overwritten. */
  ghost predicate Undisturbed(s: State, t: Tid) {
    && t < |s.txs| && s.txs[t].pc.Idle?
    && (forall l :: !s.cells[l].locked)
    && forall i :: 0 <= i < |s.txs[t].readSet| ==> s.cells[s.txs[t].readSet[i]].version <= s.txs[t].rv
  }

  /** What a transaction running alone keeps; `ro` is its mode, `c` the clock and `r` its
      read version when it began to. */
  ghost predicate Smooth(s: State, t: Tid, ro: bool, c: nat, r: nat) {
    && t < |s.txs| && s.txs[t].ro == ro
    && (forall l :: s.cells[l].owner in {None, Some(t)})
    && !Failed(s.txs[t])
    && (!Decided(s.txs[t]) ==> Unhindered(s, s.txs[t], c, r))
  }

  ghost predicate Unhindered(s: State, x: Tx, c: nat, r: nat) {
    && r <= x.rv
    && (forall l :: s.cells[l].version <= c)
    && (forall i :: 0 <= i < |x.readSet| ==> s.cells[x.readSet[i]].version <= x.rv)
    && (x.ro ==> s.clock == c)
    && match x.pc {
         case RoCheck(_, _, _, k) => k == 0 || x.rv == c
         case RoClock(_, k) => k == 0
         case RoValidate(_, k, now, _) => k == 0 && now == c
         case RoRecopy(_, k) => k == 0 && x.rv == c
         case TryCas(i, seen) => i < |x.writeSet| ==> seen == s.cells[x.writeSet[i].loc].version
         case _ => true
       }
  }

  /** The check of a read-write read finds the word newer than the read version. */
  ghost predicate FindsNewer(s: State, t: Tid, c: nat, r: nat) {
    t < |s.txs| && !s.txs[t].ro && s.txs[t].pc.RwCheck? && r <= s.txs[t].rv < s.cells[s.txs[t].pc.l].version <= c
  }

  lemma UndisturbedIsSmooth(s: State, t: Tid)
    requires Inv(s) && Undisturbed(s, t)
    ensures Smooth(s, t, s.txs[t].ro, s.clock, s.txs[t].rv)
  {
    assert TxInv(s, t);
    forall l ensures s.cells[l].owner == None && s.cells[l].version <= s.clock { assert CellInv(s, l); }
  }

  lemma CallSmooth(s: State, t: Tid, call: Call, ro: bool, c: nat, r: nat)
    requires Enabled(s, Invoke(t, call)) && Smooth(s, t, ro, c, r)
    ensures Smooth(DoCall(s, t, call), t, ro, c, r)
  {
  }

  /** A word of the read set that another transaction does not hold passes every check. */
  lemma CheckSmooth(s: State, t: Tid, ro: bool, c: nat, r: nat)
    requires Inv(s) && Smooth(s, t, ro, c, r) && Enabled(s, Tau(t)) && !Decided(s.txs[t])
    requires var pc := s.txs[t].pc; pc.RwCheck? || pc.RwCopy? || pc.RoCheck? || pc.RoValidate? || pc.Validating?
    ensures Smooth(DoTau(s, t), t, ro, c, r) || FindsNewer(s, t, c, r)
  {
    assert TxInv(s, t);
    forall l ensures s.cells[l].locked ==> l in s.txs[t].lockedSet { assert CellInv(s, l); }
    var pc := s.txs[t].pc;
    if pc.Validating? { ScanSmooth(s, t, ro, c, r); } else { ReadSmooth(s, t, ro, c, r); }
  }

  ghost predicate OnlyOwnLocks(s: State, t: Tid)
    requires t < |s.txs|
  {
    forall l :: s.cells[l].locked ==> l in s.txs[t].lockedSet
  }

  lemma ReadSmooth(s: State, t: Tid, ro: bool, c: nat, r: nat)
    requires Smooth(s, t, ro, c, r) && Enabled(s, Tau(t)) && TxInv(s, t) && OnlyOwnLocks(s, t)
    requires var pc := s.txs[t].pc; pc.RwCheck? || pc.RwCopy? || pc.RoCheck? || pc.RoValidate?
    ensures Smooth(DoTau(s, t), t, ro, c, r) || FindsNewer(s, t, c, r)
  {
  }

  lemma ScanSmooth(s: State, t: Tid, ro: bool, c: nat, r: nat)
    requires Smooth(s, t, ro, c, r) && Enabled(s, Tau(t)) && TxInv(s, t) && OnlyOwnLocks(s, t) && s.txs[t].pc.Validating?
    ensures Smooth(DoTau(s, t), t, ro, c, r)
  {
  }

  lemma CopySmooth(s: State, t: Tid, ro: bool, c: nat, r: nat)
    requires Inv(s) && Smooth(s, t, ro, c, r) && Enabled(s, Tau(t))
    requires var pc := s.txs[t].pc; pc.RoCopy? || pc.RoClock? || pc.RoRecopy?
    ensures Smooth(DoTau(s, t), t, ro, c, r)
  {
    assert TxInv(s, t);
  }

  lemma LockSmooth(s: State, t: Tid, ro: bool, c: nat, r: nat)
    requires Inv(s) && Smooth(s, t, ro, c, r) && Enabled(s, Tau(t))
    requires var pc := s.txs[t].pc; pc.Locking? || pc.TryCas? || pc.Tick?
    ensures Smooth(DoTau(s, t), t, ro, c, r)
  {
    assert TxInv(s, t);
    if s.txs[t].pc.TryCas? { assert CellInv(s, s.txs[t].writeSet[s.txs[t].pc.i].loc); }
  }

  lemma DecidedSmooth(s: State, t: Tid, ro: bool, c: nat, r: nat)
    requires Inv(s) && Smooth(s, t, ro, c, r) && Enabled(s, Tau(t)) && Decided(s.txs[t])
    ensures Smooth(DoTau(s, t), t, ro, c, r)
  {
    DoOk(s, Tau(t));
    assert TxInv(s, t);
    assert Onward(s.txs[t], DoTau(s, t).txs[t], s.clock);
  }

  lemma StepSmooth(s: State, s': State, t: Tid, ro: bool, c: nat, r: nat, a: Action)
    requires Inv(s) && Smooth(s, t, ro, c, r) && Enabled(s, a) && Mover(s, a) == t && s' == Do(s, a)
    ensures Smooth(s', t, ro, c, r) || FindsNewer(s, t, c, r)
  {
    match a
    case Begin(_) =>
    case Invoke(_, call) => CallSmooth(s, t, call, ro, c, r);
    case Tau(_) =>
      var pc := s.txs[t].pc;
      if Decided(s.txs[t]) {
        DecidedSmooth(s, t, ro, c, r);
      } else if pc.RoCopy? || pc.RoClock? || pc.RoRecopy? {
        CopySmooth(s, t, ro, c, r);
      } else if pc.Locking? || pc.TryCas? || pc.Tick? {
        LockSmooth(s, t, ro, c, r);
      } else {
        assert TxInv(s, t);
        CheckSmooth(s, t, ro, c, r);
      }
  }

  lemma {:induction false} AloneSmooth(run: seq<State>, i: nat, j: nat, t: Tid)
    requires IsRun(run) && Alone(run, i, j, t) && Undisturbed(run[i], t)
    ensures Smooth(run[j], t, run[i].txs[t].ro, run[i].clock, run[i].txs[t].rv)
            || exists k :: i <= k < j && !run[i].txs[t].ro && FindsNewer(run[k], t, run[i].clock, run[i].txs[t].rv)
    decreases j
  {
    if i == j {
      RunInv(run, i);
      UndisturbedIsSmooth(run[i], t);
    } else {
      AloneSmooth(run, i, j - 1, t);
      RunInv(run, j - 1);
      assert MovesAt(run, j - 1, t);
      var a :| Enabled(run[j - 1], a) && Mover(run[j - 1], a) == t && run[j] == Do(run[j - 1], a);
      if Smooth(run[j - 1], t, run[i].txs[t].ro, run[i].clock, run[i].txs[t].rv) {
        StepSmooth(run[j - 1], run[j], t, run[i].txs[t].ro, run[i].clock, run[i].txs[t].rv, a);
      }
    }
  }

  /** A transaction that runs alone from a moment when no word is locked and nothing it has read has been
      overwritten never fails, if it is read-only or its read version is the clock of that moment. */
  lemma AloneNeverFails(run: seq<State>, i: nat, j: nat, t: Tid)
    requires IsRun(run) && Alone(run, i, j, t) && Undisturbed(run[i], t)
    requires run[i].txs[t].ro || run[i].txs[t].rv == run[i].clock
    ensures t < |run[j].txs| && !Failed(run[j].txs[t])
  {
    AloneSmooth(run, i, j, t);
    forall k | i <= k < j ensures run[i].txs[t].ro || !FindsNewer(run[k], t, run[i].clock, run[i].txs[t].rv) {}
  }

  /** Otherwise it fails only at a read of a word that was overwritten after its begin. */
  lemma AloneFailsOnNewer(run: seq<State>, i: nat, j: nat, t: Tid)
    requires IsRun(run) && Alone(run, i, j, t) && Undisturbed(run[i], t)
    requires t < |run[j].txs| && Failed(run[j].txs[t])
    ensures exists k :: i <= k < j && t < |run[k].txs| && !run[k].txs[t].ro && run[k].txs[t].pc.RwCheck?
                        && run[k].cells[run[k].txs[t].pc.l].version > run[k].txs[t].rv
  {
    AloneSmooth(run, i, j, t);
    var k :| i <= k < j && FindsNewer(run[k], t, run[i].clock, run[i].txs[t].rv);
  }
}
