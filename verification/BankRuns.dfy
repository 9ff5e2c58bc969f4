/** Runs of the bank on the transactional memory in which its clients see what they should not: a long
    transaction that reports a violation, and a retried transfer between the wrong accounts. */
module BankRuns {
  import opened Options
  import opened SharedMemory
  import opened Stm
  import opened StmInvariant
  import opened StmTheorems
  import opened StmTraces
  import opened StmScripts
  import Bank
  import opened BankProgram
  import BankEndToEnd
  import BankRetry

  /** Two accounts per segment, one unit each. */
  const P: Bank.Params := Bank.Params(2, 1)

  const C0: Loc := Loc(0, 0)  // count, next, parity and the two accounts of segment 0
  const N0: Loc := Loc(0, 1)
  const Y0: Loc := Loc(0, 2)
  const A0: Loc := Loc(0, 3)
  const A1: Loc := Loc(0, 4)
  const C1: Loc := Loc(1, 0)  // count and first account of segment 1
  const B0: Loc := Loc(1, 3)

  /** The word holds `v` since version `w`. */
  ghost predicate Word(s: State, l: Loc, v: Val, w: nat) {
    s.cells[l] == Cell(v, w, false, None)
  }

  // ---- Traces of bodies ----

  /** After `k` operations of `o` the body stands in `b`. */
  ghost predicate Stands(start: Local, o: seq<Op>, k: nat, b: Local) {
    k <= |o| && Follows(P, start, o[..k]) && After(P, start, o[..k]) == b
  }

  lemma Starts(start: Local, o: seq<Op>)
    ensures Stands(start, o, 0, start)
  {
    assert o[..0] == [];
  }

  /** One more operation that the body asked for. */
  lemma Follow(start: Local, o: seq<Op>, k: nat, b: Local, b': Local)
    requires Stands(start, o, k, b) && k < |o| && Answers(Pending(b), o[k]) && b' == Feed(P, b, Answer(o[k]))
    ensures Stands(start, o, k + 1, b')
  {
    assert o[..k + 1][..k] == o[..k];
  }

  lemma Whole(start: Local, o: seq<Op>, b: Local)
    requires Stands(start, o, |o|, b)
    ensures Follows(P, start, o) && After(P, start, o) == b
  {
    assert o[..|o|] == o;
  }

  /** The writes of a tail, as operations. */
  function Emitted(ws: seq<Write>): seq<Op> {
    if ws == [] then [] else [Store(ws[0].loc, ws[0].val)] + Emitted(ws[1..])
  }

  lemma EmittedThree(ws: seq<Write>)
    requires |ws| == 3
    ensures Emitted(ws) == [Store(ws[0].loc, ws[0].val), Store(ws[1].loc, ws[1].val), Store(ws[2].loc, ws[2].val)]
  {
    var two := ws[1..];
    var one := two[1..];
    assert one[1..] == [] && one[0] == ws[2] && two[0] == ws[1];
    assert Emitted(one) == [Store(ws[2].loc, ws[2].val)];
    assert Emitted(two) == [Store(ws[1].loc, ws[1].val)] + Emitted(one);
  }

  lemma EmittedMore(ops: seq<Op>, ws: seq<Write>)
    requires ws != []
    ensures ops + Emitted(ws) == ops + [Store(ws[0].loc, ws[0].val)] + Emitted(ws[1..])
  {
  }

  lemma {:induction false} FollowTail(p: Bank.Params, start: Local, ops: seq<Op>, ws: seq<Write>, result: bool, all: seq<Op>)
    requires Follows(p, start, ops) && After(p, start, ops) == Emit(ws, result) && all == ops + Emitted(ws)
    ensures Follows(p, start, all) && After(p, start, all) == Emit([], result)
    decreases ws
  {
    if ws == [] {
      assert all == ops;
    } else {
      var ops' := ops + [Store(ws[0].loc, ws[0].val)];
      FollowEmit(p, start, ops, ws, result);
      EmittedMore(ops, ws);
      FollowTail(p, start, ops', ws[1..], result, all);
    }
  }

  lemma FollowEmit(p: Bank.Params, start: Local, ops: seq<Op>, ws: seq<Write>, result: bool)
    requires ws != [] && Follows(p, start, ops) && After(p, start, ops) == Emit(ws, result)
    ensures var ops' := ops + [Store(ws[0].loc, ws[0].val)];
            Follows(p, start, ops') && After(p, start, ops') == Emit(ws[1..], result)
  {
    OneMoreOp(p, start, ops, Store(ws[0].loc, ws[0].val), Emit(ws, result), Emit(ws[1..], result));
  }

  lemma OneMoreOp(p: Bank.Params, start: Local, ops: seq<Op>, o: Op, b: Local, b': Local)
    requires Follows(p, start, ops) && After(p, start, ops) == b && Answers(Pending(b), o) && b' == Feed(p, b, Answer(o))
    ensures Follows(p, start, ops + [o]) && After(p, start, ops + [o]) == b'
  {
    assert (ops + [o])[..|ops|] == ops;
  }

  // ---- Init ----

  const INIT: seq<Write> := [Write(C0, 2), Write(A0, 1), Write(A1, 1)]
  const INIT_OPS: seq<Op> := [Store(C0, 2), Store(A0, 1), Store(A1, 1)]

  ghost function InitTx(): Tx {
    Tx(false, 0, 1, [], INIT, {}, Finished(true), INIT_OPS)
  }

  /** Transaction 0 has run init's body. */
  ghost predicate Inited(s: State) {
    && s.clock == 1 && s.nseg == 1 && |s.txs| >= 1 && s.txs[0] == InitTx()
    && Word(s, C0, 2, 1) && Word(s, A0, 1, 1) && Word(s, A1, 1, 1)
    && forall l :: Spares(INIT, l) ==> Word(s, l, 0, 0)
  }

  lemma RunInit() returns (r: seq<State>)
    ensures IsRun(r) && Inited(Last(r)) && |Last(r).txs| == 1
  {
    r := [Initial()];
    r := Go(r, Begin(false));
    assert Last(r).txs == [NewTx(Initial(), false)];
    r := WriteOne(r, 0, C0, 2);
    r := WriteOne(r, 0, A0, 1);
    r := WriteOne(r, 0, A1, 1);
    assert [] + [INIT[0]] + [INIT[1]] + [INIT[2]] == INIT;
    assert [] + [INIT_OPS[0]] + [INIT_OPS[1]] + [INIT_OPS[2]] == INIT_OPS;
    assert Last(r).txs == [Tx(false, 0, -1, [], INIT, {}, Idle, INIT_OPS)];
    r := CommitAlone(r, 0);
    assert Last(r).cells[INIT[0].loc] == Cell(2, 1, false, None);
    assert Last(r).cells[INIT[1].loc] == Last(r).cells[INIT[2].loc] == Cell(1, 1, false, None);
  }

  lemma InitFollows()
    ensures Completes(P, InitBody(P), INIT_OPS)
  {
    assert InitBody(P).ws == INIT;
    EmittedThree(INIT);
    assert [] + Emitted(INIT) == INIT_OPS;
    FollowTail(P, InitBody(P), [], INIT, true, INIT_OPS);
  }

  // ---- A long transaction that reports a violation ----

  function Payment(x: int, y: int): seq<Write> {
    [Write(A0, x - 1), Write(A1, y + 1)]
  }

  function PayOps(x: int, y: int): seq<Op> {
    [Read(C0, 2, None), Read(A0, x, None), Store(A0, x - 1), Read(A1, y, None), Store(A1, y + 1)]
  }

  /** A transaction that pays one unit from account 0, which holds `x`, to account 1, which holds `y`. */
  ghost function PayTx(rv: nat, x: int, y: int, wv: int, locks: set<Loc>, pc: Pc): Tx {
    Tx(false, rv, wv, [C0, A0, A1], Payment(x, y), locks, pc, PayOps(x, y))
  }

  /** Its reads and writes. */
  lemma PayReads(run: seq<State>, x: int, y: int, w: nat) returns (r: seq<State>)
    requires IsRun(run) && Last(run).clock >= w && Last(run).clock >= 1
    requires Word(Last(run), C0, 2, 1) && Word(Last(run), A0, x, w) && Word(Last(run), A1, y, 1)
    ensures IsRun(r) && run <= r
    ensures Last(r) == Last(run).(txs := Last(run).txs + [PayTx(Last(run).clock, x, y, -1, {}, Idle)])
  {
    var t := |Last(run).txs|;
    var ws, o := Payment(x, y), PayOps(x, y);
    r := Go(run, Begin(false));
    r := ReadFree(r, t, C0);
    r := ReadFree(r, t, A0);
    r := WriteOne(r, t, A0, x - 1);
    assert [] + [ws[0]] == [ws[0]] && Spares([ws[0]], A1);
    r := ReadFree(r, t, A1);
    r := WriteOne(r, t, A1, y + 1);
    assert [ws[0]] + [ws[1]] == ws && [] + [C0] + [A0] + [A1] == [C0, A0, A1];
    assert [] + [o[0]] + [o[1]] + [o[2]] + [o[3]] + [o[4]] == o;
  }

  lemma PayFollows(x: nat, y: int)
    requires x > 0
    ensures Completes(P, BankRetry.Start(0, 1), PayOps(x, y)) && Result(P, BankRetry.Start(0, 1), PayOps(x, y))
  {
    var start, o := BankRetry.Start(0, 1), PayOps(x, y);
    Starts(start, o);
    Follow(start, o, 0, start, ShortSender(A0, A1));
    Follow(start, o, 1, ShortSender(A0, A1), ShortWrite(A0, A1, x));
    Follow(start, o, 2, ShortWrite(A0, A1, x), ShortRecver(A1));
    Follow(start, o, 3, ShortRecver(A1), Emit([Write(A1, y + 1)], true));
    assert [Write(A1, y + 1)][1..] == [];
    Follow(start, o, 4, Emit([Write(A1, y + 1)], true), Emit([], true));
    Whole(start, o, Emit([], true));
  }

  const PAY: seq<Write> := Payment(1, 1)

  const SUM_OPS: seq<Op> :=
    [Read(C0, 2, None), Read(Y0, 0, None), Read(A0, 1, Some(1)), Read(A1, 2, None), Read(N0, 0, None)]

  lemma SumFollows()
    ensures Completes(P, LongCount(0, 0, 0), SUM_OPS) && !Result(P, LongCount(0, 0, 0), SUM_OPS)
  {
    var start, o := LongCount(0, 0, 0), SUM_OPS;
    Starts(start, o);
    Follow(start, o, 0, start, LongParity(2, 0, 0, 2));
    Follow(start, o, 1, LongParity(2, 0, 0, 2), LongAccount(2, 0, 0, 2, 0));
    Follow(start, o, 2, LongAccount(2, 0, 0, 2, 0), LongAccount(2, 1, 0, 2, 1));
    Follow(start, o, 3, LongAccount(2, 1, 0, 2, 1), LongNext(2, 3, 0));
    Follow(start, o, 4, LongNext(2, 3, 0), Emit([], false));
    Whole(start, o, Emit([], false));
  }

  /** It checks account 0 after transaction 1 has let it go, reads the rest, and ends. */
  lemma RunRest(run: seq<State>) returns (r: seq<State>)
    requires IsRun(run) && |Last(run).txs| == 3
    requires Last(run).txs[2] == Tx(true, 2, -1, [C0, Y0], [], {}, RoCheck(A0, 1, Some(1), 0), SUM_OPS[..2])
    requires Word(Last(run), A0, 0, 2) && Word(Last(run), A1, 2, 2) && Word(Last(run), N0, 0, 0)
    ensures IsRun(r) && run <= r
    ensures Last(r) == Put(Last(run), 2, Tx(true, 2, -1, [C0, Y0, A0, A1, N0], [], {}, Finished(true), SUM_OPS))
  {
    r := Go(run, Tau(2));
    assert [C0, Y0] + [A0] == [C0, Y0, A0] && SUM_OPS[..2] + [SUM_OPS[2]] == SUM_OPS[..3];
    r := ReadOnlyFree(r, 2, A1);
    r := ReadOnlyFree(r, 2, N0);
    assert [C0, Y0, A0] + [A1] + [N0] == [C0, Y0, A0, A1, N0];
    assert SUM_OPS[..3] + [SUM_OPS[3]] + [SUM_OPS[4]] == SUM_OPS;
    r := Go(r, Invoke(2, End));
  }

  /** Transaction 1 holds both accounts at version 2; the rest is as init left it. */
  ghost predicate PayDrawn(s: State) {
    && s.clock == 2 && |s.txs| >= 2 && s.txs[0] == InitTx() && s.txs[1] == PayTx(1, 1, 1, 2, Locs(PAY), Publishing(0))
    && s.cells[A0] == s.cells[A1] == Cell(1, 1, true, Some(1))
    && Word(s, C0, 2, 1) && Word(s, Y0, 0, 0) && Word(s, N0, 0, 0)
  }

  lemma RunDraw(run: seq<State>) returns (r: seq<State>)
    requires IsRun(run) && Inited(Last(run)) && Last(run).txs == [InitTx(), PayTx(1, 1, 1, -1, {}, Idle)]
    ensures IsRun(r) && run <= r && PayDrawn(Last(r)) && |Last(r).txs| == 2
  {
    SparesIsNotIn(PAY, C0);
    SparesIsNotIn(PAY, Y0);
    SparesIsNotIn(PAY, N0);
    LocsPrefix(PAY, 0);
    LocsPrefix(PAY, 1);
    assert Spares(INIT, Y0) && Spares(INIT, N0);
    assert PAY[0].loc == A0 && PAY[1].loc == A1 && Spares(PAY, C0) && Spares(PAY, Y0) && Spares(PAY, N0);
    r := Draw(run, 1);
  }

  lemma PayPublishes(s: State)
    requires PayDrawn(s)
    ensures Publishes(s, 1)
  {
    forall l | l in Locs(PAY) ensures l == A0 || l == A1 { SparesIsNotIn(PAY, l); }
  }

  /** Transaction 2 begins while transaction 1 holds both accounts, and copies account 0. */
  lemma RunCopy(run: seq<State>) returns (r: seq<State>)
    requires IsRun(run) && PayDrawn(Last(run)) && |Last(run).txs| == 2
    ensures IsRun(r) && run <= r && Last(r).cells == Last(run).cells && Last(r).clock == 2
    ensures Last(r).txs == [InitTx(), PayTx(1, 1, 1, 2, Locs(PAY), Publishing(0)),
                            Tx(true, 2, -1, [C0, Y0], [], {}, RoCheck(A0, 1, Some(1), 0), SUM_OPS[..2])]
  {
    r := Go(run, Begin(true));
    r := ReadOnlyFree(r, 2, C0);
    r := ReadOnlyFree(r, 2, Y0);
    assert [] + [SUM_OPS[0]] + [SUM_OPS[1]] == SUM_OPS[..2] && [] + [C0] + [Y0] == [C0, Y0];
    assert Last(r).txs[2] == Tx(true, 2, -1, [C0, Y0], [], {}, Idle, SUM_OPS[..2]);
    r := Go(r, Invoke(2, ReadWord(A0)));
    r := Go(r, Tau(2));
  }

  lemma RunSum(run: seq<State>) returns (r: seq<State>)
    requires IsRun(run) && PayDrawn(Last(run)) && |Last(run).txs| == 2
    ensures IsRun(r) && run <= r
    ensures Last(r).txs == [InitTx(), PayTx(1, 1, 1, 2, {}, Finished(true)),
                            Tx(true, 2, -1, [C0, Y0, A0, A1, N0], [], {}, Finished(true), SUM_OPS)]
  {
    r := RunCopy(run);
    PayPublishes(Last(r));
    assert Spares(PAY, N0);
    r := StmScripts.Finish(r, 1);
    assert Last(r).cells[PAY[0].loc] == Cell(0, 2, false, None) && Last(r).cells[PAY[1].loc] == Cell(2, 2, false, None);
    r := RunRest(r);
  }

  const SUM_BODIES: seq<Local> := [InitBody(P), BankRetry.Start(0, 1), LongCount(0, 0, 0)]

  /** Without faithful copies the checker can report a violation: everything else that `LongNeverFails`
      supposes holds of this run, and its long transaction commits and returns false. */
  lemma LongReportsViolationRun() returns (run: seq<State>, i: nat, j: nat, bodies: seq<Local>)
    ensures IsRun(run) && i <= j < |run|
    ensures BankEndToEnd.SetUp(P, run[i], bodies) && BankEndToEnd.Working(run[i], bodies)
    ensures BankEndToEnd.Clients(P, run[j], bodies)
    ensures |run[i].txs| <= 2 < |run[j].txs| && 2 < |bodies| && bodies[2] == LongCount(0, 0, 0)
    ensures run[j].txs[2].ro && Committed(run[j].txs[2]) && !Faithful(run[j], run[j].txs[2])
    ensures Completes(P, bodies[2], run[j].txs[2].ops) && !Result(P, bodies[2], run[j].txs[2].ops)
  {
    var inited := RunInit();
    i := |inited| - 1;
    var paid := PayReads(inited, 1, 1, 1);
    paid := RunDraw(paid);
    run := RunSum(paid);
    j := |run| - 1;
    bodies := SUM_BODIES;
    assert run[i] == inited[i] == Last(inited);
    SetUpAfterInit(run[i], bodies);
    SumClients(run[j]);
    SumFollows();
    SumIsTorn(run[j]);
  }

  lemma SetUpAfterInit(s: State, bodies: seq<Local>)
    requires Inited(s) && |s.txs| == 1 && |bodies| >= 1 && bodies[0] == InitBody(P)
    ensures BankEndToEnd.SetUp(P, s, bodies)
  {
    assert Decided(s.txs[0]);
  }

  lemma SumClients(s: State)
    requires s.txs == [InitTx(), PayTx(1, 1, 1, 2, {}, Finished(true)),
                       Tx(true, 2, -1, [C0, Y0, A0, A1, N0], [], {}, Finished(true), SUM_OPS)]
    ensures BankEndToEnd.Clients(P, s, SUM_BODIES)
  {
    InitFollows();
    PayFollows(1, 1);
    SumFollows();
  }

  lemma SumIsTorn(s: State)
    requires s.txs == [InitTx(), PayTx(1, 1, 1, 2, {}, Finished(true)),
                       Tx(true, 2, -1, [C0, Y0, A0, A1, N0], [], {}, Finished(true), SUM_OPS)]
    ensures !Faithful(s, s.txs[2])
  {
    ScanFindsLast(PAY, 0, 0);
    assert !FaithfulCopy(s, s.txs[2], 2);
  }

  // ---- A retry that pays between the wrong accounts ----

  const GROW: seq<Write> := [Write(N0, 1), Write(C1, 1), Write(B0, 1)]
  const GROW_OPS: seq<Op> := [Read(C0, 2, None), Read(N0, 0, None), Alloc(1), Store(N0, 1), Store(C1, 1), Store(B0, 1)]

  ghost function GrowTx(wv: int, pc: Pc): Tx {
    Tx(false, 1, wv, [C0, N0], GROW, {}, pc, GROW_OPS)
  }

  /** The bank has three accounts: two in segment 0, and number 2 in segment 1. */
  ghost predicate Three(s: State) {
    && Word(s, C0, 2, 1) && Word(s, A0, 1, 1) && Word(s, A1, 1, 1)
    && Word(s, N0, 1, 2) && Word(s, C1, 1, 2) && Word(s, B0, 1, 2)
  }

  /** Transaction 1 opens the third account. */
  lemma RunGrow(run: seq<State>) returns (r: seq<State>)
    requires IsRun(run) && Inited(Last(run)) && |Last(run).txs| == 1
    ensures IsRun(r) && run <= r
    ensures Last(r).clock == 2 && Last(r).txs == [InitTx(), GrowTx(2, Finished(true))] && Three(Last(r))
  {
    assert Spares(INIT, N0) && Spares(INIT, C1) && Spares(INIT, B0);
    r := GrowReads(run);
    assert DistinctLocs(GROW) && Spares(GROW, C0) && Spares(GROW, A0) && Spares(GROW, A1);
    assert forall i :: 0 <= i < |GROW| ==> StmScripts.Free(Last(r), GROW[i].loc, 1);
    r := CommitAlone(r, 1);
    assert Last(r).cells[GROW[0].loc] == Last(r).cells[GROW[1].loc] == Last(r).cells[GROW[2].loc] == Cell(1, 2, false, None);
  }

  lemma GrowReads(run: seq<State>) returns (r: seq<State>)
    requires IsRun(run) && Inited(Last(run)) && |Last(run).txs| == 1 && Word(Last(run), N0, 0, 0)
    ensures IsRun(r) && run <= r
    ensures Last(r) == Last(run).(nseg := 2, txs := [InitTx(), GrowTx(-1, Idle)])
  {
    r := Go(run, Begin(false));
    r := ReadFree(r, 1, C0);
    r := ReadFree(r, 1, N0);
    assert [] + [GROW_OPS[0]] + [GROW_OPS[1]] == GROW_OPS[..2] && [] + [C0] + [N0] == [C0, N0];
    assert Last(r).txs == [InitTx(), Tx(false, 1, -1, [C0, N0], [], {}, Idle, GROW_OPS[..2])];
    r := GrowWrites(r);
  }

  lemma GrowWrites(run: seq<State>) returns (r: seq<State>)
    requires IsRun(run) && Last(run).nseg == 1
    requires Last(run).txs == [InitTx(), Tx(false, 1, -1, [C0, N0], [], {}, Idle, GROW_OPS[..2])]
    ensures IsRun(r) && run <= r
    ensures Last(r) == Last(run).(nseg := 2, txs := [InitTx(), GrowTx(-1, Idle)])
  {
    r := Go(run, Invoke(1, AllocSegment));
    r := WriteOne(r, 1, N0, 1);
    r := WriteOne(r, 1, C1, 1);
    r := WriteOne(r, 1, B0, 1);
    assert GROW_OPS[..2] + [GROW_OPS[2]] + [GROW_OPS[3]] + [GROW_OPS[4]] + [GROW_OPS[5]] == GROW_OPS;
    assert [] + [GROW[0]] + [GROW[1]] + [GROW[2]] == GROW;
    assert Last(r).txs == [InitTx(), GrowTx(-1, Idle)];
  }

  lemma GrowFollows()
    ensures Completes(P, AllocCount(5, 0, None, 0), GROW_OPS)
  {
    var start, o := AllocCount(5, 0, None, 0), GROW_OPS;
    Starts(start, o);
    Follow(start, o, 0, start, AllocNext(5, 2, None, 0, 2));
    Follow(start, o, 1, AllocNext(5, 2, None, 0, 2), OpenSegment(0));
    Follow(start, o, 2, OpenSegment(0), Emit(GROW, true));
    EmittedThree(GROW);
    assert o[..3] + Emitted(GROW) == o;
    FollowTail(P, start, o[..3], GROW, true, o);
  }

  const TRY_OPS: seq<Op> := [Read(C0, 2, None), Read(N0, 1, None), Read(C1, 1, None)]

  ghost function TryTx(pc: Pc): Tx {
    Tx(false, 2, -1, [C0, N0, C1], [], {}, pc, TRY_OPS)
  }

  /** Transaction 2 is asked to pay from account 2 to account 1, and has found both. */
  lemma RunTry(run: seq<State>) returns (r: seq<State>)
    requires IsRun(run) && Last(run).clock == 2 && |Last(run).txs| == 2 && Three(Last(run))
    ensures IsRun(r) && run <= r && Last(r) == Last(run).(txs := Last(run).txs + [TryTx(Idle)])
  {
    r := Go(run, Begin(false));
    r := ReadFree(r, 2, C0);
    r := ReadFree(r, 2, N0);
    r := ReadFree(r, 2, C1);
    assert [] + [TRY_OPS[0]] + [TRY_OPS[1]] + [TRY_OPS[2]] == TRY_OPS && [] + [C0] + [N0] + [C1] == [C0, N0, C1];
  }

  lemma TryFollows()
    ensures Follows(P, BankRetry.Start(2, 1), TRY_OPS)
    ensures BankRetry.Left(P, 2, 1, TRY_OPS) == BankRetry.Captured(0, 1, Some(B0), Some(A1))
  {
    var start, o := BankRetry.Start(2, 1), TRY_OPS;
    var b1, b2 := ShortNext(0, 1, None, Some(A1), 0), ShortCount(0, 1, None, Some(A1), 1);
    Starts(start, o);
    Follow(start, o, 0, start, b1);
    Follow(start, o, 1, b1, b2);
    Follow(start, o, 2, b2, ShortSender(B0, A1));
    Whole(start, o, ShortSender(B0, A1));
    TryLeaves(start, o, b1, b2);
  }

  lemma TryLeaves(start: Local, o: seq<Op>, b1: Local, b2: Local)
    requires start == BankRetry.Start(2, 1) && o == TRY_OPS
    requires b1 == ShortNext(0, 1, None, Some(A1), 0) && b2 == ShortCount(0, 1, None, Some(A1), 1)
    requires Stands(start, o, 0, start) && Stands(start, o, 1, b1) && Stands(start, o, 2, b2)
    ensures BankRetry.Left(P, 2, 1, o) == BankRetry.Captured(0, 1, Some(B0), Some(A1))
  {
    assert o[..1][..0] == o[..0] == [] && o[..2][..1] == o[..1] && o[..3] == o;
    assert BankRetry.Left(P, 2, 1, o[..1]) == BankRetry.Captured(0, 1, None, Some(A1));
    assert BankRetry.Left(P, 2, 1, o[..2]) == BankRetry.Captured(0, 1, None, Some(A1));
  }

  const RIVAL: seq<Write> := [Write(B0, 0), Write(A0, 2)]
  const RIVAL_OPS: seq<Op> := [Read(C0, 2, None), Read(N0, 1, None), Read(C1, 1, None), Read(B0, 1, None), Store(B0, 0),
                               Read(A0, 1, None), Store(A0, 2)]

  ghost function RivalTx(wv: int, pc: Pc): Tx {
    Tx(false, 2, wv, [C0, N0, C1, B0, A0], RIVAL, {}, pc, RIVAL_OPS)
  }

  /** Transaction 3 pays from account 2 to account 0, and commits. */
  lemma RunRival(run: seq<State>) returns (r: seq<State>)
    requires IsRun(run) && Last(run).clock == 2 && |Last(run).txs| == 3 && Three(Last(run))
    ensures IsRun(r) && run <= r
    ensures Last(r).clock == 3 && Last(r).txs == Last(run).txs + [RivalTx(3, Finished(true))]
    ensures Word(Last(r), C0, 2, 1) && Word(Last(r), A1, 1, 1) && Word(Last(r), B0, 0, 3) && Word(Last(r), A0, 2, 3)
  {
    r := RivalReads(run);
    assert DistinctLocs(RIVAL) && Spares(RIVAL, C0) && Spares(RIVAL, A1);
    r := CommitAlone(r, 3);
    assert Last(r).cells[RIVAL[0].loc] == Cell(0, 3, false, None) && Last(r).cells[RIVAL[1].loc] == Cell(2, 3, false, None);
  }

  lemma RivalReads(run: seq<State>) returns (r: seq<State>)
    requires IsRun(run) && Last(run).clock == 2 && |Last(run).txs| == 3 && Three(Last(run))
    ensures IsRun(r) && run <= r && Last(r) == Last(run).(txs := Last(run).txs + [RivalTx(-1, Idle)])
  {
    r := Go(run, Begin(false));
    r := ReadFree(r, 3, C0);
    r := ReadFree(r, 3, N0);
    r := ReadFree(r, 3, C1);
    r := ReadFree(r, 3, B0);
    var o := RIVAL_OPS;
    assert [] + [o[0]] + [o[1]] + [o[2]] + [o[3]] == o[..4] && [] + [C0] + [N0] + [C1] + [B0] == [C0, N0, C1, B0];
    assert Last(r).txs == Last(run).txs + [Tx(false, 2, -1, [C0, N0, C1, B0], [], {}, Idle, o[..4])];
    r := RivalPays(run, r);
  }

  lemma RivalPays(start: seq<State>, run: seq<State>) returns (r: seq<State>)
    requires |start| > 0 && Last(start).clock == 2 && |Last(start).txs| == 3 && Three(Last(start)) && IsRun(run) && start <= run
    requires Last(run) == Last(start).(txs := Last(start).txs + [Tx(false, 2, -1, [C0, N0, C1, B0], [], {}, Idle, RIVAL_OPS[..4])])
    ensures IsRun(r) && run <= r && Last(r) == Last(start).(txs := Last(start).txs + [RivalTx(-1, Idle)])
  {
    r := WriteOne(run, 3, B0, 0);
    assert [] + [RIVAL[0]] == [RIVAL[0]] && Spares([RIVAL[0]], A0);
    r := ReadFree(r, 3, A0);
    r := WriteOne(r, 3, A0, 2);
    assert [RIVAL[0]] + [RIVAL[1]] == RIVAL && [C0, N0, C1, B0] + [A0] == [C0, N0, C1, B0, A0];
    assert RIVAL_OPS[..4] + [RIVAL_OPS[4]] + [RIVAL_OPS[5]] + [RIVAL_OPS[6]] == RIVAL_OPS;
  }

  /** Transaction 4 retries with the indices that transaction 2 has left. */
  lemma RunAgain(run: seq<State>) returns (r: seq<State>)
    requires IsRun(run) && Last(run).clock == 3 && |Last(run).txs| == 4
    requires Word(Last(run), C0, 2, 1) && Word(Last(run), A1, 1, 1) && Word(Last(run), A0, 2, 3)
    ensures IsRun(r) && run <= r
    ensures Last(r).txs == Last(run).txs + [PayTx(3, 2, 1, 4, {}, Finished(true))]
  {
    r := PayReads(run, 2, 1, 3);
    r := CommitAlone(r, 4);
  }

  /** A transfer from account 2 to account 1 is asked for.  Its first attempt finds both, fails at its next
      read, and leaves 0 and 1 in the captured indices; the retry starts with these, takes its unit from
      account 0 instead of account 2, and commits with result true. */
  lemma RetryPaysFromWrongAccountRun() returns (run: seq<State>)
    ensures IsRun(run) && |Last(run).txs| == 5
    ensures var tried, again := Last(run).txs[2], Last(run).txs[4];
            && Failed(tried) && Follows(P, BankRetry.Start(2, 1), tried.ops)
            && var left := BankRetry.Left(P, 2, 1, tried.ops);
               && left.sender == Some(Account(1, 0)) && left.recver == Some(Account(0, 1))
               && Completes(P, BankRetry.Start(left.send, left.recv), again.ops)
               && Result(P, BankRetry.Start(left.send, left.recv), again.ops)
               && Committed(again) && !again.ro
               && again.writeSet == [Write(Account(0, 0), 1), Write(Account(0, 1), 2)]
  {
    run := RunInit();
    run := RunGrow(run);
    run := RunTry(run);
    run := RunRival(run);
    run := FailRead(run, 2, B0);
    run := RunAgain(run);
    TryFollows();
    PayFollows(2, 1);
  }
}
