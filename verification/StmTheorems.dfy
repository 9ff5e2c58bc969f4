/** What the machine promises over every run: serializability in write-version order, snapshots for
    read-only transactions, real-time order, lock discipline, and failed commits without a trace. */
module StmTheorems {
  import opened Options
  import opened SharedMemory
  import opened Stm
  import opened StmInvariant
  import opened StmSteps

  // ---- Serial execution, as a client would define it ----

  /** Memory after executing the operations one by one, alone, on `m`. */
  ghost function RunOps(ops: seq<Op>, m: Memory): Memory {
    if ops == [] then m
    else
      var o := ops[|ops| - 1];
      var m1 := RunOps(ops[..|ops| - 1], m);
      if o.Store? then m1[o.loc := o.val] else m1
  }

  /** Executed alone on `m`, the operations would read exactly the values they did read. */
  ghost predicate Legal(ops: seq<Op>, m: Memory) {
    forall k :: 0 <= k < |ops| && ops[k].Read? ==> ops[k].val == RunOps(ops[..k], m)[ops[k].loc]
  }

  /** Memory after executing, one whole transaction at a time in version order, every commit with
      version at most `v`. */
  ghost function SerialMem(log: map<nat, Commit>, v: nat): Memory {
    if v == 0 then Zeroed()
    else if v in log then RunOps(log[v].ops, SerialMem(log, v - 1))
    else SerialMem(log, v - 1)
  }

  lemma {:induction false} RunOpsOverlay(ops: seq<Op>, m: Memory, l: Loc)
    ensures RunOps(ops, m)[l] == Overlay(StoresOf(ops), l, m[l])
  {
    if ops != [] {
      var n := |ops| - 1;
      RunOpsOverlay(ops[..n], m, l);
      if ops[n].Store? {
        var ws := StoresOf(ops);
        assert ws[..|ws| - 1] == StoresOf(ops[..n]);
      }
    }
  }

  lemma {:induction false} SerialMemAt(s: State, v: nat, l: Loc)
    requires Inv(s)
    ensures SerialMem(s.log, v)[l] == At(s.log, l, v)
  {
    if v > 0 {
      SerialMemAt(s, v - 1, l);
      if v in s.log {
        RunOpsOverlay(s.log[v].ops, SerialMem(s.log, v - 1), l);
        assert Serial(s, v);
      }
    }
  }

  predicate Committed(x: Tx) {
    x.pc == Finished(true)
  }

  /** A committed read-write transaction, executed alone right after all commits with smaller write
      versions, reads what it read; and its effect there is the next serial memory. */
  lemma CommitsAreSerial(run: seq<State>, i: nat, t: Tid)
    requires IsRun(run) && i < |run| && t < |run[i].txs|
    requires Committed(run[i].txs[t]) && !run[i].txs[t].ro
    ensures var x := run[i].txs[t];
            && x.wv > 0
            && Legal(x.ops, SerialMem(run[i].log, x.wv - 1))
            && SerialMem(run[i].log, x.wv) == RunOps(x.ops, SerialMem(run[i].log, x.wv - 1))
    ensures forall u :: 0 <= u < |run[i].txs| && u != t ==> run[i].txs[u].wv != run[i].txs[t].wv
  {
    RunInv(run, i);
    assert TxInv(run[i], t);
    LoggedIsLegal(run[i], run[i].txs[t].wv);
  }

  lemma LoggedIsLegal(s: State, w: nat)
    requires Inv(s) && w in s.log
    ensures w > 0 && Legal(s.log[w].ops, SerialMem(s.log, w - 1))
  {
    var ops := s.log[w].ops;
    assert Serial(s, w);
    forall k | 0 <= k < |ops| && ops[k].Read?
      ensures ops[k].val == RunOps(ops[..k], SerialMem(s.log, w - 1))[ops[k].loc]
    {
      assert SerialRead(s, w, k);
      RunOpsOverlay(ops[..k], SerialMem(s.log, w - 1), ops[k].loc);
      SerialMemAt(s, w - 1, ops[k].loc);
    }
  }

  /** Every commit of the history, finished or still writing back, is serial in the same sense. */
  lemma HistoryIsSerial(run: seq<State>, i: nat)
    requires IsRun(run) && i < |run|
    ensures forall w :: w in run[i].log ==>
              0 < w <= run[i].clock && Legal(run[i].log[w].ops, SerialMem(run[i].log, w - 1))
  {
    RunInv(run, i);
    forall w | w in run[i].log
      ensures 0 < w <= run[i].clock && Legal(run[i].log[w].ops, SerialMem(run[i].log, w - 1))
    {
      LoggedIsLegal(run[i], w);
    }
  }

  /** A word whose lock is free holds its value in the serial memory of all commits. */
  lemma UnlockedIsSerial(run: seq<State>, i: nat, l: Loc)
    requires IsRun(run) && i < |run| && !run[i].cells[l].locked
    ensures run[i].cells[l].val == SerialMem(run[i].log, run[i].clock)[l]
  {
    RunInv(run, i);
    assert CellInv(run[i], l);
    SerialMemAt(run[i], run[i].clock, l);
  }

  // ---- The past does not change ----

  ghost predicate Effected(s: State, s': State) {
    exists t :: Effect(s, s', t)
  }

  ghost predicate EffectAt(run: seq<State>, k: nat)
    requires k + 1 < |run|
  {
    Effected(run[k], run[k + 1])
  }

  ghost predicate EffectRun(run: seq<State>) {
    forall k {:trigger EffectAt(run, k)} :: 0 <= k < |run| - 1 ==> EffectAt(run, k)
  }

  lemma RunEffects(run: seq<State>)
    requires IsRun(run)
    ensures EffectRun(run)
  {
    forall k | 0 <= k < |run| - 1 ensures EffectAt(run, k) {
      RunInv(run, k);
      assert StepAt(run, k);
      var a :| Enabled(run[k], a) && run[k + 1] == Do(run[k], a);
      DoOk(run[k], a);
    }
  }

  /** Once no running commit with version up to `v` can write the word, none ever will. */
  lemma {:induction false} FrozenForever(run: seq<State>, i: nat, j: nat, l: Loc, v: nat)
    requires EffectRun(run) && i <= j < |run|
    requires v <= run[i].clock && Frozen(run[i].txs, l, v)
    ensures run[i].clock <= run[j].clock && Frozen(run[j].txs, l, v)
    ensures forall w :: w in run[i].log ==> w in run[j].log && run[j].log[w] == run[i].log[w]
    ensures forall w :: w in run[j].log && w !in run[i].log && w <= v ==> l !in Locs(run[j].log[w].writes)
    decreases j
  {
    if i < j {
      FrozenForever(run, i, j - 1, l, v);
      assert EffectAt(run, j - 1);
      var t :| Effect(run[j - 1], run[j], t);
      FrozenStable(run[j - 1], run[j], t, l, v);
    }
  }

  /** No transaction deciding later with a smaller version writes a word a commit took from memory. */
  lemma NoLateWriter(run: seq<State>, i: nat, j: nat, w: nat, k: nat, v: nat)
    requires IsRun(run) && i <= j < |run|
    requires w in run[i].log && k < |run[i].log[w].ops| && run[i].log[w].ops[k].Read?
    requires run[i].log[w].ops[k].loc !in Locs(StoresOf(run[i].log[w].ops[..k]))
    requires v < w && v in run[j].log && v !in run[i].log
    ensures run[i].log[w].ops[k].loc !in Locs(run[j].log[v].writes)
  {
    RunInv(run, i);
    assert Serial(run[i], w) && SerialRead(run[i], w, k);
    RunEffects(run);
    FrozenForever(run, i, j, run[i].log[w].ops[k].loc, w - 1);
  }

  // ---- Read-only transactions ----

  /** Read `k` copied its word while no writer within the snapshot held it; or that writer did not
      commit; or it wrote the value that was copied. */
  ghost predicate FaithfulCopy(s: State, x: Tx, k: nat)
    requires k < |x.ops| && x.ops[k].Read?
  {
    match x.ops[k].under
    case None => true
    case Some(u) =>
      u < |s.txs| && (Decided(s.txs[u]) ==> Overlay(s.txs[u].writeSet, x.ops[k].loc, 0) == x.ops[k].val)
  }

  /** A read-only transaction that is running between operations, or has ended successfully, saw the
      serial memory at its read version exactly when each of its copies is faithful. */
  lemma SnapshotExactlyWhenFaithful(run: seq<State>, i: nat, t: Tid)
    requires IsRun(run) && i < |run| && t < |run[i].txs|
    requires run[i].txs[t].ro && !Failed(run[i].txs[t])
    ensures var x := run[i].txs[t];
            && (forall k :: 0 <= k < |x.ops| ==> x.ops[k].Read?)
            && (Legal(x.ops, SerialMem(run[i].log, x.rv)) <==>
                  forall k :: 0 <= k < |x.ops| ==> FaithfulCopy(run[i], x, k))
  {
    RunInv(run, i);
    var s, x := run[i], run[i].txs[t];
    assert TxInv(s, t);
    forall k | 0 <= k < |x.ops| ensures x.ops[k].Read? { assert RoRead(s, x, k); }
    forall k | 0 <= k < |x.ops|
      ensures x.ops[k].val == RunOps(x.ops[..k], SerialMem(s.log, x.rv))[x.ops[k].loc] <==> FaithfulCopy(s, x, k)
    {
      assert RoRead(s, x, k);
      NoStores(x.ops[..k]);
      RunOpsOverlay(x.ops[..k], SerialMem(s.log, x.rv), x.ops[k].loc);
      SerialMemAt(s, x.rv, x.ops[k].loc);
    }
  }

  lemma {:induction false} NoStores(ops: seq<Op>)
    requires forall k :: 0 <= k < |ops| ==> ops[k].Read?
    ensures StoresOf(ops) == []
  {
    if ops != [] { NoStores(ops[..|ops| - 1]); }
  }

  /** The copy condition: every word was free of writers within the snapshot when it was last copied. */
  predicate CleanCopies(x: Tx) {
    forall k :: 0 <= k < |x.ops| && x.ops[k].Read? ==> x.ops[k].under == None
  }

  /** In particular a copy made while the word is unlocked meets the copy condition. */
  lemma UnlockedCopyIsClean(run: seq<State>, i: nat, t: Tid, tries: nat)
    requires IsRun(run) && i < |run| && t < |run[i].txs|
    requires (run[i].txs[t].pc.RoCopy? || run[i].txs[t].pc.RoRecopy?) && tries < RO_RETRIES
    requires !run[i].cells[run[i].txs[t].pc.l].locked
    ensures var y := DoRoCopy(run[i], t, tries).txs[t];
            y.pc == RoCheck(run[i].txs[t].pc.l, run[i].cells[run[i].txs[t].pc.l].val, None, tries)
  {
    RunInv(run, i);
    assert CellInv(run[i], run[i].txs[t].pc.l);
  }

  /** Every read copied a faithful value, as far as state `s` tells. */
  ghost predicate Faithful(s: State, x: Tx) {
    forall k :: 0 <= k < |x.ops| && x.ops[k].Read? ==> FaithfulCopy(s, x, k)
  }

  lemma FaithfulSnapshot(run: seq<State>, i: nat, t: Tid)
    requires IsRun(run) && i < |run| && t < |run[i].txs|
    requires run[i].txs[t].ro && !Failed(run[i].txs[t]) && Faithful(run[i], run[i].txs[t])
    ensures run[i].txs[t].rv <= run[i].clock
    ensures Legal(run[i].txs[t].ops, SerialMem(run[i].log, run[i].txs[t].rv))
  {
    SnapshotExactlyWhenFaithful(run, i, t);
    RunInv(run, i);
    assert TxInv(run[i], t);
  }

  lemma ReadOnlySnapshot(run: seq<State>, i: nat, t: Tid)
    requires IsRun(run) && i < |run| && t < |run[i].txs|
    requires run[i].txs[t].ro && !Failed(run[i].txs[t]) && CleanCopies(run[i].txs[t])
    ensures Faithful(run[i], run[i].txs[t])
    ensures Legal(run[i].txs[t].ops, SerialMem(run[i].log, run[i].txs[t].rv))
  {
    FaithfulSnapshot(run, i, t);
  }

  /** Timestamp extension: when the rescan after the clock load has passed, no commit with a version
      in (old, new] writes any word read so far, neither now nor at any later time. */
  lemma ExtensionSound(run: seq<State>, i: nat, j: nat, t: Tid, k: nat)
    requires IsRun(run) && i <= j < |run| && t < |run[i].txs|
    requires run[i].txs[t].pc.RoValidate? && run[i].txs[t].pc.i >= |run[i].txs[t].readSet|
    requires k < |run[i].txs[t].readSet|
    ensures var x := run[i].txs[t];
            && x.rv <= x.pc.now
            && Quiet(run[j].log, x.readSet[k], x.rv, x.pc.now)
            && SerialMem(run[j].log, x.pc.now)[x.readSet[k]] == SerialMem(run[j].log, x.rv)[x.readSet[k]]
  {
    RunInv(run, i);
    RunInv(run, j);
    var x := run[i].txs[t];
    assert TxInv(run[i], t) && Revalidated(run[i], x.readSet[k], x.rv, x.pc.now);
    RunEffects(run);
    FrozenForever(run, i, j, x.readSet[k], x.pc.now);
    AtQuiet(run[j].log, x.readSet[k], x.rv, x.pc.now);
    SerialMemAt(run[j], x.rv, x.readSet[k]);
    SerialMemAt(run[j], x.pc.now, x.readSet[k]);
  }

  // ---- Real-time order ----

  /** Position in the serial order: a read-write transaction at its write version, a read-only one
      after all commits with versions up to its read version. */
  function Place(x: Tx): (int, int) {
    if x.ro then (x.rv, 1) else (x.wv, 0)
  }

  predicate Before(p: (int, int), q: (int, int)) {
    p.0 < q.0 || (p.0 == q.0 && p.1 < q.1)
  }

  lemma {:induction false} EndedIsFinal(run: seq<State>, i: nat, j: nat, a: Tid)
    requires EffectRun(run) && i <= j < |run| && a < |run[i].txs| && run[i].txs[a].pc.Finished?
    ensures a < |run[j].txs| && run[j].txs[a] == run[i].txs[a]
    decreases j
  {
    if i < j {
      EndedIsFinal(run, i, j - 1, a);
      assert EffectAt(run, j - 1);
      var t :| Effect(run[j - 1], run[j], t);
    }
  }

  /** A transaction that begins after some moment reads the clock of that moment or a later one. */
  lemma {:induction false} BegunLater(run: seq<State>, i: nat, j: nat, b: Tid)
    requires EffectRun(run) && i <= j < |run|
    ensures run[i].clock <= run[j].clock
    ensures |run[i].txs| <= b < |run[j].txs| ==> run[i].clock <= run[j].txs[b].rv
    decreases j
  {
    if i < j {
      BegunLater(run, i, j - 1, b);
      assert EffectAt(run, j - 1);
      var t :| Effect(run[j - 1], run[j], t);
    }
  }

  /** If `a` has ended before `b` begins, `a` comes first in the serial order; two read-only
      transactions may share a place. */
  lemma RealTimeOrder(run: seq<State>, i: nat, j: nat, a: Tid, b: Tid)
    requires IsRun(run) && i <= j < |run|
    requires a < |run[i].txs| && Committed(run[i].txs[a])
    requires |run[i].txs| <= b < |run[j].txs| && Committed(run[j].txs[b])
    ensures run[j].txs[a] == run[i].txs[a]
    ensures var p, q := Place(run[j].txs[a]), Place(run[j].txs[b]);
            Before(p, q) || (p == q && run[j].txs[a].ro && run[j].txs[b].ro)
  {
    RunEffects(run);
    EndedIsFinal(run, i, j, a);
    BegunLater(run, i, j, b);
    RunInv(run, i);
    assert TxInv(run[i], a);
    RunInv(run, j);
    assert TxInv(run[j], b);
  }

  // ---- Skipped validation ----

  /** When the write version will be the next after the read version, every value taken from memory
      is the serial value at the read version, whoever holds locks on the words read. */
  lemma SkipIsSafe(run: seq<State>, i: nat, t: Tid, k: nat)
    requires IsRun(run) && i < |run| && t < |run[i].txs|
    requires run[i].txs[t].pc.Tick? && run[i].clock == run[i].txs[t].rv
    requires k < |run[i].txs[t].ops| && run[i].txs[t].ops[k].Read?
    requires run[i].txs[t].ops[k].loc !in Locs(StoresOf(run[i].txs[t].ops[..k]))
    ensures run[i].txs[t].ops[k].val == SerialMem(run[i].log, run[i].txs[t].rv)[run[i].txs[t].ops[k].loc]
  {
    RunInv(run, i);
    assert TxInv(run[i], t) && RwRead(run[i], run[i].txs[t], k);
    SerialMemAt(run[i], run[i].txs[t].rv, run[i].txs[t].ops[k].loc);
  }

  // ---- Lock discipline ----

  /** At most one transaction owns a lock bit, a set bit has an owner, and versions stay within the
      clock. */
  lemma LockOwnership(run: seq<State>, i: nat, l: Loc)
    requires IsRun(run) && i < |run|
    ensures run[i].cells[l].version <= run[i].clock
    ensures run[i].cells[l].locked <==>
              exists t :: 0 <= t < |run[i].txs| && l in run[i].txs[t].lockedSet
    ensures forall t, u :: 0 <= t < u < |run[i].txs| ==> l !in run[i].txs[t].lockedSet || l !in run[i].txs[u].lockedSet
  {
    RunInv(run, i);
    assert CellInv(run[i], l);
    forall t | 0 <= t < |run[i].txs| && l in run[i].txs[t].lockedSet ensures run[i].cells[l].owner == Some(t) {
      assert TxInv(run[i], t);
    }
  }

  /** Only the owner of the lock changes the word or its version, and a version change is an increase. */
  lemma OnlyOwnerWrites(run: seq<State>, i: nat, a: Action, l: Loc)
    requires IsRun(run) && i < |run| && Enabled(run[i], a)
    ensures var c, c' := run[i].cells[l], Do(run[i], a).cells[l];
            && (c'.val != c.val ==> c.locked && c.owner == Some(Mover(run[i], a)))
            && (c'.version != c.version ==> c.locked && c.owner == Some(Mover(run[i], a)) && c'.version > c.version)
            && (c.locked && !c'.locked ==> c.owner == Some(Mover(run[i], a)))
  {
    RunInv(run, i);
    assert CellInv(run[i], l);
    if a.Tau? {
      assert TxInv(run[i], a.t);
      TauWritesOwned(run[i], a.t, l);
    }
  }

  lemma TauWritesOwned(s: State, t: Tid, l: Loc)
    requires Enabled(s, Tau(t)) && TxInv(s, t) && (s.cells[l].locked <==> s.cells[l].owner.Some?)
    ensures var c, c' := s.cells[l], DoTau(s, t).cells[l];
            && (c'.val != c.val ==> c.locked && c.owner == Some(t))
            && (c'.version != c.version ==> c.locked && c.owner == Some(t) && c'.version > c.version)
            && (c.locked && !c'.locked ==> c.owner == Some(t))
  {
    var x := s.txs[t];
    if x.pc.UnlockStore? || x.pc.VersionStore? || (x.pc.Publishing? && x.pc.i < |x.writeSet|) {
      LocsPrefix(x.writeSet, x.pc.i);
    }
  }

  /** The stores of `unlock` and `set_version` write back a half of the lock word that nobody has
      changed since they loaded it. */
  lemma NoLostUpdate(run: seq<State>, i: nat, t: Tid)
    requires IsRun(run) && i < |run| && t < |run[i].txs|
    requires run[i].txs[t].pc.UnlockStore? || run[i].txs[t].pc.VersionStore?
    ensures var x := run[i].txs[t];
            && x.pc.i < |x.writeSet|
            && var c := run[i].cells[x.writeSet[x.pc.i].loc];
               && (x.pc.UnlockStore? ==> x.pc.seen == c.version)
               && (x.pc.VersionStore? ==> x.pc.held == c.locked)
  {
    RunInv(run, i);
    var x := run[i].txs[t];
    assert TxInv(run[i], t);
    LocsPrefix(x.writeSet, x.pc.i);
    assert CellInv(run[i], x.writeSet[x.pc.i].loc);
  }
}
