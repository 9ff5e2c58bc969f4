/** The bank on the transactional memory, end to end: whatever the interleaving, the checker's long
    transaction never reports a violation. */
module BankEndToEnd {
  import opened SharedMemory
  import opened Stm
  import opened StmInvariant
  import opened StmSteps
  import opened StmTheorems
  import Bank
  import opened BankProgram
  import BankSteps
  import BankChecker

  // ---- Allocated segments are never handed out twice ----

  ghost predicate IdsBelow(s: State) {
    && s.nseg > 0
    && forall t, k :: 0 <= t < |s.txs| && 0 <= k < |s.txs[t].ops| && s.txs[t].ops[k].Alloc? ==>
         0 < s.txs[t].ops[k].seg < s.nseg
  }

  ghost predicate IdsUnique(s: State) {
    forall t, k, u, h
      | 0 <= t < |s.txs| && 0 <= u < |s.txs| && 0 <= k < |s.txs[t].ops| && 0 <= h < |s.txs[u].ops|
      :: s.txs[t].ops[k].Alloc? && s.txs[u].ops[h] == s.txs[t].ops[k] ==> t == u && k == h
  }

  /** A step adds at most one operation to one trace, and an allocation draws the next segment. */
  ghost predicate Traced(s: State, s': State, t: Tid) {
    && s.nseg <= s'.nseg
    && t < |s'.txs| && |s.txs| <= |s'.txs|
    && (forall u :: 0 <= u < |s'.txs| && u != t ==> u < |s.txs| && s'.txs[u].ops == s.txs[u].ops)
    && (t >= |s.txs| ==> s'.txs[t].ops == [])
    && (t < |s.txs| ==> GrewBy(s.txs[t].ops, s'.txs[t].ops, s.nseg, s'.nseg))
  }

  predicate GrewBy(ops: seq<Op>, ops': seq<Op>, nseg: nat, nseg': nat) {
    || ops' == ops
    || (|ops'| == |ops| + 1 && ops'[..|ops|] == ops
        && (ops'[|ops|].Alloc? ==> ops'[|ops|].seg == nseg && nseg' == nseg + 1))
  }

  lemma DoTraced(s: State, a: Action)
    requires Enabled(s, a)
    ensures Traced(s, Do(s, a), Mover(s, a))
  {
    match a {
      case Begin(_) =>
      case Invoke(t, c) => CallTraced(s, t, c);
      case Tau(t) => TauTraced(s, t);
    }
  }

  lemma CallTraced(s: State, t: Tid, c: Call)
    requires Enabled(s, Invoke(t, c))
    ensures Traced(s, DoCall(s, t, c), t)
  {
  }

  lemma TauTraced(s: State, t: Tid)
    requires Enabled(s, Tau(t))
    ensures Traced(s, DoTau(s, t), t)
  {
    var pc := s.txs[t].pc;
    if pc.RwCheck? || pc.RwCopy? || pc.RoCheck? {
    } else {
      TauQuiet(s, t);
    }
  }

  /** A step that returns nothing to the client leaves its trace alone. */
  lemma TauQuiet(s: State, t: Tid)
    requires Enabled(s, Tau(t))
    requires !s.txs[t].pc.RwCheck? && !s.txs[t].pc.RwCopy? && !s.txs[t].pc.RoCheck?
    ensures Silent(s, DoTau(s, t), t)
  {
    if Committing(s.txs[t].pc) { CommitQuiet(s, t); }
  }

  predicate Silent(s: State, s': State, t: Tid)
    requires t < |s.txs|
  {
    && s'.nseg == s.nseg && |s'.txs| == |s.txs|
    && s'.txs == s.txs[t := s'.txs[t]]
    && s'.txs[t].ops == s.txs[t].ops
  }

  predicate Committing(pc: Pc) {
    pc.TryCas? || pc.Tick? || pc.Validating? || pc.Publishing? || pc.VersionLoad? || pc.VersionStore?
    || pc.Unlocking? || pc.UnlockStore?
  }

  lemma CommitQuiet(s: State, t: Tid)
    requires Enabled(s, Tau(t)) && Committing(s.txs[t].pc)
    ensures Silent(s, DoTau(s, t), t)
  {
  }

  lemma IdsKept(s: State, s': State, t: Tid)
    requires IdsBelow(s) && IdsUnique(s) && Traced(s, s', t)
    ensures IdsBelow(s') && IdsUnique(s')
  {
    assert t < |s.txs| ==> GrewBy(s.txs[t].ops, s'.txs[t].ops, s.nseg, s'.nseg);
    forall u, k | 0 <= u < |s'.txs| && 0 <= k < |s'.txs[u].ops|
      ensures u < |s.txs| && k < |s.txs[u].ops| ==> s'.txs[u].ops[k] == s.txs[u].ops[k]
      ensures u >= |s.txs| || k >= |s.txs[u].ops| ==>
                u == t && u < |s.txs| && k == |s.txs[u].ops| == |s'.txs[u].ops| - 1
                && (s'.txs[u].ops[k].Alloc? ==> s'.txs[u].ops[k].seg == s.nseg && s'.nseg == s.nseg + 1)
    {
      if u == t && u < |s.txs| && k < |s.txs[u].ops| {
        assert s'.txs[u].ops[..|s.txs[u].ops|][k] == s.txs[u].ops[k];
      }
    }
  }

  lemma IdsStep(s: State, s': State)
    requires IdsBelow(s) && IdsUnique(s) && Next(s, s')
    ensures IdsBelow(s') && IdsUnique(s')
  {
    var a :| Enabled(s, a) && s' == Do(s, a);
    DoTraced(s, a);
    IdsKept(s, s', Mover(s, a));
  }

  lemma {:induction false} RunIds(run: seq<State>, i: nat)
    requires IsRun(run) && i < |run|
    ensures IdsBelow(run[i]) && IdsUnique(run[i])
  {
    if i > 0 {
      RunIds(run, i - 1);
      assert StepAt(run, i - 1);
      IdsStep(run[i - 1], run[i]);
    }
  }

  /** Segments allocated by commits with version at most `v`, and segment 0. */
  ghost function UsedBy(log: map<nat, Commit>, v: nat): set<nat> {
    if v == 0 then {0}
    else if v in log then UsedBy(log, v - 1) + AllocIds(log[v].ops)
    else UsedBy(log, v - 1)
  }

  lemma {:induction false} AllocIdsIndex(ops: seq<Op>, x: nat)
    requires x in AllocIds(ops)
    ensures exists k :: 0 <= k < |ops| && ops[k] == Alloc(x)
  {
    var n := |ops| - 1;
    if x in AllocIds(ops[..n]) {
      AllocIdsIndex(ops[..n], x);
      var k :| 0 <= k < |ops[..n]| && ops[..n][k] == Alloc(x);
      assert ops[k] == Alloc(x);
    }
  }

  lemma {:induction false} UsedByIndex(log: map<nat, Commit>, v: nat, x: nat)
    requires x in UsedBy(log, v) && x != 0
    ensures exists w :: w in log && w <= v && x in AllocIds(log[w].ops)
  {
    if v in log && x in AllocIds(log[v].ops) {
    } else {
      UsedByIndex(log, v - 1, x);
    }
  }

  lemma LoggedTrace(s: State, w: nat)
    requires Inv(s) && w in s.log
    ensures s.log[w].tid < |s.txs| && s.txs[s.log[w].tid].ops == s.log[w].ops && s.txs[s.log[w].tid].wv == w
  {
    assert TxInv(s, s.log[w].tid);
  }

  /** Allocations of a commit are fresh with respect to all commits serialized before it. */
  lemma CommitAllocsFresh(s: State, w: nat)
    requires Inv(s) && IdsBelow(s) && IdsUnique(s) && w in s.log && w > 0
    ensures FreshAllocs(s.log[w].ops, UsedBy(s.log, w - 1))
  {
    LoggedTrace(s, w);
    var ops := s.log[w].ops;
    forall k | 0 <= k < |ops| && ops[k].Alloc?
      ensures ops[k].seg > 0 && ops[k].seg !in UsedBy(s.log, w - 1) + AllocIds(ops[..k])
    {
      NotAllocatedTwice(s, s.log[w].tid, k);
      NotAllocatedBefore(s, w, k);
    }
  }

  lemma NotAllocatedTwice(s: State, t: Tid, k: nat)
    requires IdsBelow(s) && IdsUnique(s) && t < |s.txs| && k < |s.txs[t].ops| && s.txs[t].ops[k].Alloc?
    ensures s.txs[t].ops[k].seg > 0 && s.txs[t].ops[k].seg !in AllocIds(s.txs[t].ops[..k])
  {
    var ops := s.txs[t].ops;
    if ops[k].seg in AllocIds(ops[..k]) {
      AllocIdsIndex(ops[..k], ops[k].seg);
    }
  }

  lemma NotAllocatedBefore(s: State, w: nat, k: nat)
    requires Inv(s) && IdsBelow(s) && IdsUnique(s) && w in s.log && w > 0
    requires k < |s.log[w].ops| && s.log[w].ops[k].Alloc?
    ensures s.log[w].ops[k].seg !in UsedBy(s.log, w - 1)
  {
    LoggedTrace(s, w);
    var x := s.log[w].ops[k].seg;
    var t := s.log[w].tid;
    assert x > 0 by { assert s.txs[t].ops[k].Alloc?; }
    if x in UsedBy(s.log, w - 1) {
      UsedByIndex(s.log, w - 1, x);
      var v :| v in s.log && v <= w - 1 && x in AllocIds(s.log[v].ops);
      AllocIdsIndex(s.log[v].ops, x);
      LoggedTrace(s, v);
    }
  }

  // ---- The first transactions ----

  /** The trace of a body of which only writes are left. */
  lemma {:induction false} EmitTrace(p: Bank.Params, ws: seq<Write>, result: bool, ops: seq<Op>)
    requires Follows(p, Emit(ws, result), ops)
    ensures |ops| <= |ws| && StoresOf(ops) == ws[..|ops|] && AllocIds(ops) == {}
    ensures After(p, Emit(ws, result), ops) == Emit(ws[|ops|..], result)
  {
    if ops != [] {
      var n := |ops| - 1;
      EmitTrace(p, ws, result, ops[..n]);
      assert ws[n..][1..] == ws[n + 1..];
      assert ws[..n] + [ws[n]] == ws[..n + 1];
    } else {
      assert ws[0..] == ws;
    }
  }

  lemma InitTrace(p: Bank.Params, ops: seq<Op>, m: Memory, l: Loc)
    requires Completes(p, InitBody(p), ops)
    ensures AllocIds(ops) == {}
    ensures RunOps(ops, m)[l] == Overlay(InitBody(p).ws, l, m[l])
  {
    EmitTrace(p, InitBody(p).ws, true, ops);
    assert |ops| == |InitBody(p).ws|;
    assert InitBody(p).ws[..|ops|] == InitBody(p).ws;
    RunOpsOverlay(ops, m, l);
  }

  /** The bank right after init (workload.hpp lines 281-286). */
  function FirstBank(p: Bank.Params): Bank.Accounts {
    [Bank.Segment(0, 0, seq(p.perSegment, i => p.initBalance))]
  }

  lemma {:induction false} SumConstant(p: Bank.Params, xs: seq<int>)
    requires forall i :: 0 <= i < |xs| ==> xs[i] == p.initBalance
    ensures Bank.Sum(xs) == Bank.Stake(p, |xs|)
  {
    if xs != [] { SumConstant(p, xs[..|xs| - 1]); }
  }

  lemma FirstBankSound(p: Bank.Params)
    requires p.perSegment > 0
    ensures Bank.Sound(p, FirstBank(p))
  {
    var b := FirstBank(p);
    SumConstant(p, b[0].accounts);
    assert b[..0] == [];
    assert Bank.Count(b) == Bank.Count(b[..0]) + |b[0].accounts|;
    assert Bank.Worth(b) == Bank.Worth(b[..0]) + b[0].parity + Bank.Sum(b[0].accounts);
  }

  ghost predicate Inited(p: Bank.Params, m: Memory) {
    forall l: Loc :: m[l] == Overlay(InitBody(p).ws, l, 0)
  }

  lemma InitWritesOnce(p: Bank.Params, l: Loc)
    ensures l == Loc(0, Bank.COUNT) ==> Overlay(InitBody(p).ws, l, 0) == p.perSegment
    ensures l.seg == 0 && Bank.FIRST <= l.off < Bank.FIRST + p.perSegment ==> Overlay(InitBody(p).ws, l, 0) == p.initBalance
    ensures l.seg != 0 || l.off == Bank.NEXT || l.off == Bank.PARITY ==> Overlay(InitBody(p).ws, l, 0) == 0
  {
    var ws := InitBody(p).ws;
    if l == Loc(0, Bank.COUNT) { ScanFindsLast(ws, 0, 0); }
    if l.seg == 0 && Bank.FIRST <= l.off < Bank.FIRST + p.perSegment {
      var i := l.off - Bank.FIRST;
      assert ws[i + 1] == Write(Account(0, i), p.initBalance);
      ScanFindsLast(ws, i + 1, 0);
    }
    if l.seg != 0 || l.off == Bank.NEXT || l.off == Bank.PARITY { ScanMisses(ws, l); }
  }

  lemma {:induction false} ScanMisses(ws: seq<Write>, l: Loc)
    requires forall i :: 0 <= i < |ws| ==> ws[i].loc != l
    ensures Overlay(ws, l, 0) == 0
  {
    if ws != [] { ScanMisses(ws[..|ws| - 1], l); }
  }

  lemma InitedIsStored(p: Bank.Params, m: Memory)
    requires p.perSegment > 0 && Inited(p, m)
    ensures BankSteps.Ready(p, FirstBank(p), m, {0})
  {
    var b := FirstBank(p);
    FirstBankSound(p);
    forall l: Loc ensures l.seg !in {0} ==> m[l] == 0 { InitWritesOnce(p, l); }
    InitWritesOnce(p, Loc(0, Bank.COUNT));
    InitWritesOnce(p, Loc(0, Bank.NEXT));
    InitWritesOnce(p, Loc(0, Bank.PARITY));
    forall i | 0 <= i < p.perSegment ensures m[Loc(0, Bank.FIRST + i)] == b[0].accounts[i] {
      InitWritesOnce(p, Loc(0, Bank.FIRST + i));
    }
    assert Bank.SegmentAt(m, b, 0);
  }

  // ---- Clients ----

  /** Transactions run the bodies named by `bodies` (one per transaction, retries included). */
  ghost predicate Clients(p: Bank.Params, s: State, bodies: seq<Local>) {
    && |s.txs| <= |bodies|
    && forall t :: 0 <= t < |s.txs| && (Decided(s.txs[t]) || (s.txs[t].ro && Committed(s.txs[t]))) ==>
         Completes(p, bodies[t], s.txs[t].ops)
  }

  /** The round of init calls is over: everything begun so far has ended, every commit so far ran
      init's body, and at least one did commit. */
  ghost predicate SetUp(p: Bank.Params, s: State, bodies: seq<Local>) {
    && p.perSegment > 0
    && |s.txs| <= |bodies|
    && (forall t :: 0 <= t < |s.txs| ==> s.txs[t].pc.Finished?)
    && (forall t :: 0 <= t < |s.txs| && Decided(s.txs[t]) ==> bodies[t] == InitBody(p))
    && exists t :: 0 <= t < |s.txs| && Decided(s.txs[t])
  }

  /** Every transaction begun after the round of init calls runs a bank body. */
  ghost predicate Working(s: State, bodies: seq<Local>) {
    forall t :: |s.txs| <= t < |bodies| ==> BankBody(bodies[t])
  }

  /** Commits up to the end of the init round ran init's body; later ones a bank body. */
  lemma CommitKinds(p: Bank.Params, run: seq<State>, i: nat, j: nat, bodies: seq<Local>, w: nat)
    requires IsRun(run) && i <= j < |run|
    requires SetUp(p, run[i], bodies) && Working(run[i], bodies) && Clients(p, run[j], bodies)
    requires w in run[j].log
    ensures w > 0 && run[j].log[w].tid < |bodies|
    ensures var body := bodies[run[j].log[w].tid];
            && Completes(p, body, run[j].log[w].ops)
            && if w <= run[i].clock then body == InitBody(p) else BankBody(body)
  {
    RunInv(run, j);
    var t := run[j].log[w].tid;
    assert TxInv(run[j], t);
    RunEffects(run);
    BegunLater(run, i, j, t);
    if t < |run[i].txs| {
      EndedIsFinal(run, i, j, t);
      RunInv(run, i);
      assert TxInv(run[i], t);
    }
  }

  // ---- The serial history as the bank sees it ----

  /** Commit `w` is a whole body that replays on the memory of its predecessors: init's body up to
      version `c`, a bank body after it. */
  ghost predicate Explained(p: Bank.Params, log: map<nat, Commit>, c: nat, bodies: seq<Local>, w: nat)
    requires w in log
  {
    && w > 0
    && log[w].tid < |bodies|
    && var body, ops := bodies[log[w].tid], log[w].ops;
       && Completes(p, body, ops)
       && Legal(ops, SerialMem(log, w - 1))
       && FreshAllocs(ops, UsedBy(log, w - 1))
       && if w <= c then body == InitBody(p) else BankBody(body)
  }

  ghost predicate CommittedBy(log: map<nat, Commit>, v: nat) {
    exists w :: w in log && 0 < w <= v
  }

  ghost predicate Scenario(p: Bank.Params, log: map<nat, Commit>, c: nat, bodies: seq<Local>) {
    && p.perSegment > 0
    && CommittedBy(log, c)
    && forall w {:trigger Explained(p, log, c, bodies, w)} :: w in log ==> Explained(p, log, c, bodies, w)
  }

  lemma RunIsScenario(p: Bank.Params, run: seq<State>, i: nat, j: nat, bodies: seq<Local>)
    requires IsRun(run) && i <= j < |run|
    requires SetUp(p, run[i], bodies) && Working(run[i], bodies) && Clients(p, run[j], bodies)
    ensures Scenario(p, run[j].log, run[i].clock, bodies)
  {
    var t :| 0 <= t < |run[i].txs| && Decided(run[i].txs[t]);
    InitCommitIn(run, i, j, t);
    forall w | w in run[j].log ensures Explained(p, run[j].log, run[i].clock, bodies, w) {
      CommitKinds(p, run, i, j, bodies, w);
      RunInv(run, j);
      RunIds(run, j);
      LoggedIsLegal(run[j], w);
      CommitAllocsFresh(run[j], w);
    }
  }

  lemma InitCommitIn(run: seq<State>, i: nat, j: nat, t: Tid)
    requires IsRun(run) && i <= j < |run| && t < |run[i].txs| && Decided(run[i].txs[t]) && run[i].txs[t].pc.Finished?
    ensures run[i].txs[t].wv > 0 && run[i].txs[t].wv in run[j].log && run[i].txs[t].wv <= run[i].clock
  {
    RunInv(run, i);
    assert TxInv(run[i], t);
    RunEffects(run);
    EndedIsFinal(run, i, j, t);
    RunInv(run, j);
    assert TxInv(run[j], t);
  }

  ghost predicate AllInit(p: Bank.Params, log: map<nat, Commit>, v: nat) {
    forall w {:trigger RanInit(p, log, w)} :: w in log && w <= v ==> RanInit(p, log, w)
  }

  ghost predicate RanInit(p: Bank.Params, log: map<nat, Commit>, w: nat)
    requires w in log
  {
    Completes(p, InitBody(p), log[w].ops)
  }

  /** Memory during the init round: zero, or what init writes. */
  lemma {:induction false} InitRound(p: Bank.Params, log: map<nat, Commit>, v: nat)
    requires AllInit(p, log, v)
    ensures UsedBy(log, v) == {0}
    ensures if CommittedBy(log, v) then Inited(p, SerialMem(log, v)) else SerialMem(log, v) == Zeroed()
  {
    if v == 0 {
      assert !CommittedBy(log, 0);
    } else {
      assert AllInit(p, log, v - 1);
      InitRound(p, log, v - 1);
      if v in log { assert RanInit(p, log, v); InitCommit(p, log, v); } else { NothingNew(log, v); }
    }
  }

  lemma NothingNew(log: map<nat, Commit>, v: nat)
    requires v > 0 && v !in log
    ensures CommittedBy(log, v) <==> CommittedBy(log, v - 1)
    ensures SerialMem(log, v) == SerialMem(log, v - 1) && UsedBy(log, v) == UsedBy(log, v - 1)
  {
    if CommittedBy(log, v) {
      var w :| w in log && 0 < w <= v;
      assert 0 < w <= v - 1;
    }
    if CommittedBy(log, v - 1) {
      var w :| w in log && 0 < w <= v - 1;
      assert 0 < w <= v;
    }
  }

  lemma InitCommit(p: Bank.Params, log: map<nat, Commit>, v: nat)
    requires v in log && v > 0 && Completes(p, InitBody(p), log[v].ops)
    requires Inited(p, SerialMem(log, v - 1)) || SerialMem(log, v - 1) == Zeroed()
    ensures Inited(p, SerialMem(log, v)) && AllocIds(log[v].ops) == {} && CommittedBy(log, v)
  {
    var m := SerialMem(log, v - 1);
    forall l: Loc ensures SerialMem(log, v)[l] == Overlay(InitBody(p).ws, l, 0) {
      InitTrace(p, log[v].ops, m, l);
      OverlayDefault(InitBody(p).ws, l, m[l], 0);
    }
    InitTrace(p, log[v].ops, m, Loc(0, 0));
  }

  lemma BankAfterInit(p: Bank.Params, log: map<nat, Commit>, c: nat, bodies: seq<Local>)
    requires Scenario(p, log, c, bodies)
    ensures BankSteps.Ready(p, FirstBank(p), SerialMem(log, c), UsedBy(log, c))
  {
    forall w | w in log && w <= c ensures RanInit(p, log, w) {
      assert Explained(p, log, c, bodies, w);
    }
    InitRound(p, log, c);
    InitedIsStored(p, SerialMem(log, c));
  }

  /** `bank` is stored, sound, in the serial memory at version `v`. */
  ghost predicate BankAt(p: Bank.Params, log: map<nat, Commit>, v: nat, bank: Bank.Accounts) {
    BankSteps.Ready(p, bank, SerialMem(log, v), UsedBy(log, v))
  }

  /** From the end of the init round on, every serial memory stores a sound bank. */
  lemma {:induction false} SerialBank(p: Bank.Params, log: map<nat, Commit>, c: nat, bodies: seq<Local>, v: nat)
      returns (bank: Bank.Accounts)
    requires Scenario(p, log, c, bodies) && c <= v
    ensures BankAt(p, log, v, bank)
    decreases v
  {
    if v == c {
      bank := FirstBank(p);
      BankAfterInit(p, log, c, bodies);
    } else {
      var before := SerialBank(p, log, c, bodies, v - 1);
      bank := NextBank(p, log, c, bodies, v, before);
    }
  }

  lemma NextBank(p: Bank.Params, log: map<nat, Commit>, c: nat, bodies: seq<Local>, v: nat, before: Bank.Accounts)
      returns (bank: Bank.Accounts)
    requires Scenario(p, log, c, bodies) && c < v && BankAt(p, log, v - 1, before)
    ensures BankAt(p, log, v, bank)
  {
    if v in log {
      bank := SerialCommit(p, log, c, bodies, v, before);
    } else {
      NothingNew(log, v);
      bank := before;
    }
  }

  /** A commit after the init round turns one stored sound bank into the next, as its body promises. */
  lemma SerialCommit(p: Bank.Params, log: map<nat, Commit>, c: nat, bodies: seq<Local>, w: nat, bank: Bank.Accounts)
      returns (bank': Bank.Accounts)
    requires Scenario(p, log, c, bodies) && w in log && c < w
    requires BankAt(p, log, w - 1, bank)
    ensures BankAt(p, log, w, bank')
    ensures Explained(p, log, c, bodies, w)
    ensures Outcome(p, bodies[log[w].tid], bank, bank', Result(p, bodies[log[w].tid], log[w].ops))
  {
    assert Explained(p, log, c, bodies, w);
    bank' := BankSteps.BodyOutcome(p, bodies[log[w].tid], bank, SerialMem(log, w - 1), UsedBy(log, w - 1), log[w].ops);
  }

  lemma LaterCommit(run: seq<State>, i: nat, j: nat, t: Tid) returns (w: nat)
    requires IsRun(run) && i <= j < |run|
    requires |run[i].txs| <= t < |run[j].txs| && !run[j].txs[t].ro && Committed(run[j].txs[t])
    ensures w == run[j].txs[t].wv && w > run[i].clock && w in run[j].log
    ensures run[j].log[w].tid == t && run[j].log[w].ops == run[j].txs[t].ops
  {
    RunEffects(run);
    BegunLater(run, i, j, t);
    RunInv(run, j);
    assert TxInv(run[j], t);
    w := run[j].txs[t].wv;
  }

  /** Commit `w` of `body` takes the sound bank before it to the sound bank after it. */
  ghost predicate TakesBank(p: Bank.Params, log: map<nat, Commit>, w: nat, body: Local, ops: seq<Op>,
                            bank: Bank.Accounts, bank': Bank.Accounts)
  {
    && w > 0
    && BankAt(p, log, w - 1, bank) && BankAt(p, log, w, bank')
    && Completes(p, body, ops)
    && Outcome(p, body, bank, bank', Result(p, body, ops))
  }

  lemma SerialStep(p: Bank.Params, log: map<nat, Commit>, c: nat, bodies: seq<Local>, w: nat)
      returns (bank: Bank.Accounts, bank': Bank.Accounts)
    requires Scenario(p, log, c, bodies) && w in log && c < w
    ensures log[w].tid < |bodies| && TakesBank(p, log, w, bodies[log[w].tid], log[w].ops, bank, bank')
  {
    bank := SerialBank(p, log, c, bodies, w - 1);
    bank' := SerialCommit(p, log, c, bodies, w, bank);
  }

  /** Every transaction of the bank that commits after the init round takes one sound bank to the next,
      exactly as its body would alone. */
  lemma CommitKeepsBank(p: Bank.Params, run: seq<State>, i: nat, j: nat, bodies: seq<Local>, t: Tid)
      returns (bank: Bank.Accounts, bank': Bank.Accounts)
    requires IsRun(run) && i <= j < |run|
    requires SetUp(p, run[i], bodies) && Working(run[i], bodies) && Clients(p, run[j], bodies)
    requires |run[i].txs| <= t < |run[j].txs| && !run[j].txs[t].ro && Committed(run[j].txs[t])
    ensures run[j].txs[t].wv > 0
    ensures TakesBank(p, run[j].log, run[j].txs[t].wv, bodies[t], run[j].txs[t].ops, bank, bank')
  {
    var w := LaterCommit(run, i, j, t);
    RunIsScenario(p, run, i, j, bodies);
    bank, bank' := SerialStep(p, run[j].log, run[i].clock, bodies, w);
  }

  /** The checker never reports a violation: in any run of bank transactions after the init round, a
      committed long transaction whose copies are faithful returns true. */
  lemma LongNeverFails(p: Bank.Params, run: seq<State>, i: nat, j: nat, bodies: seq<Local>, t: Tid)
    requires IsRun(run) && i <= j < |run|
    requires SetUp(p, run[i], bodies) && Working(run[i], bodies) && Clients(p, run[j], bodies)
    requires |run[i].txs| <= t < |run[j].txs| && bodies[t] == LongCount(0, 0, 0)
    requires run[j].txs[t].ro && Committed(run[j].txs[t]) && Faithful(run[j], run[j].txs[t])
    ensures Completes(p, bodies[t], run[j].txs[t].ops) && Result(p, bodies[t], run[j].txs[t].ops)
  {
    var x := run[j].txs[t];
    FaithfulSnapshot(run, j, t);
    SnapshotExactlyWhenFaithful(run, j, t);
    RunEffects(run);
    BegunLater(run, i, j, t);
    RunIsScenario(p, run, i, j, bodies);
    var bank := SerialBank(p, run[j].log, run[i].clock, bodies, x.rv);
    ReadsAllocateNothing(x.ops);
    var bank' := BankSteps.BodyOutcome(p, bodies[t], bank, SerialMem(run[j].log, x.rv), UsedBy(run[j].log, x.rv), x.ops);
  }

  lemma ReadsAllocateNothing(ops: seq<Op>)
    requires forall k :: 0 <= k < |ops| ==> ops[k].Read?
    ensures forall used :: FreshAllocs(ops, used)
  {
  }

  /** init's own check (lines 287-292): while only init bodies have committed, a read-only check that
      begins after one of them has ended finds the balance it looks for. */
  lemma InitCheckPasses(p: Bank.Params, run: seq<State>, i: nat, j: nat, bodies: seq<Local>, a: Tid, t: Tid)
    requires IsRun(run) && i <= j < |run| && p.perSegment > 0 && Clients(p, run[j], bodies)
    requires forall u :: 0 <= u < |run[j].txs| && Decided(run[j].txs[u]) ==> bodies[u] == InitBody(p)
    requires a < |run[i].txs| && Decided(run[i].txs[a]) && run[i].txs[a].pc.Finished?
    requires |run[i].txs| <= t < |run[j].txs| && bodies[t] == CheckFirst
    requires run[j].txs[t].ro && Committed(run[j].txs[t]) && Faithful(run[j], run[j].txs[t])
    ensures Completes(p, CheckFirst, run[j].txs[t].ops) && Result(p, CheckFirst, run[j].txs[t].ops)
  {
    var x := run[j].txs[t];
    var m := SerialMem(run[j].log, x.rv);
    FaithfulSnapshot(run, j, t);
    RunEffects(run);
    BegunLater(run, i, j, t);
    InitCommitIn(run, i, j, a);
    RunInv(run, j);
    forall w | w in run[j].log ensures RanInit(p, run[j].log, w) {
      assert TxInv(run[j], run[j].log[w].tid);
    }
    InitRound(p, run[j].log, x.rv);
    assert CommittedBy(run[j].log, x.rv);
    InitWritesOnce(p, Account(0, 0));
    CheckTrace(p, x.ops, m);
  }

  lemma CheckTrace(p: Bank.Params, ops: seq<Op>, m: Memory)
    requires Completes(p, CheckFirst, ops) && Legal(ops, m) && m[Account(0, 0)] == p.initBalance
    ensures Result(p, CheckFirst, ops)
  {
    BankChecker.CheckVerdict(p, ops);
    assert ops[..0] == [];
    assert ops[0].val == RunOps(ops[..0], m)[ops[0].loc];
  }
}
