/** Attempts end: whatever mixture of versions an attempt of alloc_tx or short_tx sees, it asks for at most
    two operations for each segment allocated before it began, and a bounded tail. */
module BankBounds {
  import opened Options
  import opened SharedMemory
  import opened Stm
  import opened StmInvariant
  import opened StmSteps
  import opened StmTheorems
  import opened StmLive
  import opened Bank
  import opened BankProgram
  import BankSteps
  import opened BankEndToEnd
  import opened BankAttempts

  // ---- Nothing in a snapshot is newer than the snapshot ----

  /** A step of a read-write transaction keeps its read version. */
  lemma TauKeepsVersion(s: State, t: Tid)
    requires Enabled(s, Tau(t)) && TxInv(s, t) && !s.txs[t].ro
    ensures t < |DoTau(s, t).txs| && DoTau(s, t).txs[t].rv == s.txs[t].rv
  {
    if !s.txs[t].pc.RwCheck? && !s.txs[t].pc.RwCopy? { OtherTau(s, t); }
  }

  lemma TauKeepsMode(s: State, t: Tid)
    requires Enabled(s, Tau(t))
    ensures t < |DoTau(s, t).txs| && DoTau(s, t).txs[t].ro == s.txs[t].ro
  {
    if !Committing(s.txs[t].pc) { TauKeepsModeReading(s, t); }
  }

  lemma TauKeepsModeReading(s: State, t: Tid)
    requires Enabled(s, Tau(t)) && !Committing(s.txs[t].pc)
    ensures t < |DoTau(s, t).txs| && DoTau(s, t).txs[t].ro == s.txs[t].ro
  {
  }

  lemma DoKeepsVersion(s: State, a: Action, t: Tid)
    requires Inv(s) && Enabled(s, a) && t < |s.txs| && !s.txs[t].ro
    ensures t < |Do(s, a).txs| && !Do(s, a).txs[t].ro && Do(s, a).txs[t].rv == s.txs[t].rv
  {
    assert TxInv(s, t);
    if a.Tau? && a.t == t {
      TauKeepsVersion(s, t);
      TauKeepsMode(s, t);
    } else {
      DoOk(s, a);
    }
  }

  lemma StepKeepsVersion(s: State, s': State, t: Tid)
    requires Inv(s) && Next(s, s') && t < |s.txs| && !s.txs[t].ro
    ensures t < |s'.txs| && !s'.txs[t].ro && s'.txs[t].rv == s.txs[t].rv
  {
    var a :| Enabled(s, a) && s' == Do(s, a);
    DoKeepsVersion(s, a, t);
  }

  lemma BeginLoadsClock(s: State, s': State)
    requires Inv(s) && Next(s, s') && |s.txs| < |s'.txs|
    ensures s'.txs[|s.txs|].rv == s.clock
  {
    var a :| Enabled(s, a) && s' == Do(s, a);
    DoOk(s, a);
  }

  /** Transaction `t` is begun, as a read-write transaction, by the step after moment `b`. */
  ghost predicate BeginsAt(run: seq<State>, b: nat, t: Tid) {
    b + 1 < |run| && |run[b].txs| == t < |run[b + 1].txs| && !run[b + 1].txs[t].ro
  }

  /** The read version of a read-write transaction is the clock at its begin. */
  lemma {:induction false} VersionIsClock(run: seq<State>, b: nat, j: nat, t: Tid)
    requires IsRun(run) && BeginsAt(run, b, t) && b < j < |run|
    ensures t < |run[j].txs| && !run[j].txs[t].ro && run[j].txs[t].rv == run[b].clock
  {
    RunInv(run, j - 1);
    assert StepAt(run, j - 1);
    if j == b + 1 {
      BeginLoadsClock(run[b], run[j]);
    } else {
      VersionIsClock(run, b, j - 1, t);
      StepKeepsVersion(run[j - 1], run[j], t);
    }
  }

  /** A write version up to an earlier clock was drawn before, and its transaction's trace was complete. */
  lemma OldVersionStep(s: State, s': State, u: Tid, c: nat)
    requires Inv(s) && Next(s, s') && c <= s.clock && u < |s'.txs| && 0 < s'.txs[u].wv <= c
    ensures u < |s.txs| && s.txs[u].wv == s'.txs[u].wv && s.txs[u].ops == s'.txs[u].ops
  {
    var a :| Enabled(s, a) && s' == Do(s, a);
    DoOk(s, a);
    assert u < |s.txs| && TxInv(s, u);
    if a.Tau? && a.t == u { TauQuiet(s, u); }
  }

  lemma LastStep(run: seq<State>, b: nat, j: nat)
    requires IsRun(run) && EffectRun(run) && b < j < |run|
    ensures Inv(run[j - 1]) && Next(run[j - 1], run[j]) && run[b].clock <= run[j - 1].clock
  {
    RunInv(run, j - 1);
    assert StepAt(run, j - 1);
    BegunLater(run, b, j - 1, 0);
  }

  /** A commit with a version up to the clock of some moment had its whole trace by then. */
  lemma {:induction false} OldTraces(run: seq<State>, b: nat, j: nat, u: Tid)
    requires IsRun(run) && EffectRun(run) && b <= j < |run|
    requires u < |run[j].txs| && 0 < run[j].txs[u].wv <= run[b].clock
    ensures u < |run[b].txs| && run[b].txs[u].ops == run[j].txs[u].ops
    decreases j
  {
    if b < j {
      LastStep(run, b, j);
      OldVersionStep(run[j - 1], run[j], u, run[b].clock);
      OldTraces(run, b, j - 1, u);
    }
  }

  /** Segments of commits with versions up to the clock of some moment were allocated by then. */
  lemma UsedWereAllocated(run: seq<State>, b: nat, j: nat, v: nat, x: nat)
    requires IsRun(run) && b <= j < |run| && v <= run[b].clock && x in UsedBy(run[j].log, v)
    ensures x < run[b].nseg
  {
    RunIds(run, b);
    if x != 0 {
      RunInv(run, j);
      UsedByIndex(run[j].log, v, x);
      var w :| w in run[j].log && w <= v && x in AllocIds(run[j].log[w].ops);
      AllocIdsIndex(run[j].log[w].ops, x);
      LoggedTrace(run[j], w);
      RunEffects(run);
      OldTraces(run, b, j, run[j].log[w].tid);
    }
  }

  // ---- A bank of segments with small numbers is short ----

  function IdsOf(b: Accounts): set<nat> {
    if b == [] then {} else IdsOf(b[..|b| - 1]) + {b[|b| - 1].id}
  }

  lemma {:induction false} IdsOfIndex(b: Accounts, x: nat)
    requires x in IdsOf(b)
    ensures exists j :: 0 <= j < |b| && b[j].id == x
  {
    var n := |b| - 1;
    if b[n].id != x {
      IdsOfIndex(b[..n], x);
      var j :| 0 <= j < n && b[..n][j].id == x;
      assert b[j].id == x;
    }
  }

  lemma {:induction false} DistinctIds(b: Accounts)
    requires forall j, k :: 0 <= j < k < |b| ==> b[j].id != b[k].id
    ensures |IdsOf(b)| == |b|
  {
    if b != [] {
      var n := |b| - 1;
      DistinctIds(b[..n]);
      if b[n].id in IdsOf(b[..n]) { IdsOfIndex(b[..n], b[n].id); }
    }
  }

  function Below(n: nat): set<nat> {
    if n == 0 then {} else Below(n - 1) + {n - 1}
  }

  lemma {:induction false} BelowSize(n: nat)
    ensures |Below(n)| == n && forall x: nat :: x in Below(n) <==> x < n
  {
    if n > 0 { BelowSize(n - 1); }
  }

  lemma {:induction false} SubsetSize<T>(a: set<T>, b: set<T>)
    requires a <= b
    ensures |a| <= |b|
  {
    if a != {} {
      var x :| x in a;
      SubsetSize(a - {x}, b - {x});
    }
  }

  lemma ShortBank(bank: Accounts, n: nat)
    requires Ids(bank) && forall j :: 0 <= j < |bank| ==> bank[j].id < n
    ensures |bank| <= n
  {
    DistinctIds(bank);
    BelowSize(n);
    forall x | x in IdsOf(bank) ensures x in Below(n) { IdsOfIndex(bank, x); }
    SubsetSize(IdsOf(bank), Below(n));
  }

  // ---- The bound ----

  /** At every moment of every run, a live attempt of alloc_tx or short_tx has performed at most seven
      operations more than twice the number of segments that were allocated before it began. */
  lemma AttemptIsBounded(p: Params, run: seq<State>, i: nat, b: nat, j: nat, bodies: seq<Local>, t: Tid)
    requires IsRun(run) && i <= b < j < |run| && BeginsAt(run, b, t)
    requires SetUp(p, run[i], bodies) && Working(run[i], bodies) && Clients(p, run[j], bodies)
    requires t < |run[j].txs| && IsLive(run[j].txs[t])
    requires Follows(p, bodies[t], run[j].txs[t].ops) && !bodies[t].LongCount?
    ensures |run[j].txs[t].ops| <= 2 * run[b].nseg + 7
  {
    var x := run[j].txs[t];
    RunEffects(run);
    BegunLater(run, i, b, t);
    VersionIsClock(run, b, j, t);
    Started(run, i, b, t);
    LiveIsView(p, run, i, j, bodies, t);
    RunIsScenario(p, run, i, j, bodies);
    var bank := SerialBank(p, run[j].log, run[i].clock, bodies, x.rv);
    MixedViewsEnd(p, bodies[t], bank, SerialMem(run[j].log, x.rv), x.ops);
    forall k | 0 <= k < |bank| ensures bank[k].id < run[b].nseg {
      UsedWereAllocated(run, b, j, x.rv, bank[k].id);
    }
    ShortBank(bank, run[b].nseg);
  }

  /** Transactions are never removed. */
  lemma {:induction false} Started(run: seq<State>, i: nat, b: nat, t: Tid)
    requires EffectRun(run) && i <= b < |run| && |run[b].txs| <= t
    ensures |run[i].txs| <= t
    decreases b
  {
    if i < b {
      assert EffectAt(run, b - 1);
      var u :| Effect(run[b - 1], run[b], u);
      Started(run, i, b - 1, t);
    }
  }
}
