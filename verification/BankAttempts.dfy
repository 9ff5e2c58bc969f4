/** alloc_tx while it runs (grading/workload.hpp lines 186-226): an attempt that is going to fail may have
    seen words of different versions, and still never counts below its first account and never follows
    a null segment. */
module BankAttempts {
  import opened Options
  import opened SharedMemory
  import opened Stm
  import opened StmInvariant
  import opened StmSteps
  import opened StmTheorems
  import opened StmLive
  import opened Bank
  import opened BankProgram
  import BankSteps
  import opened BankEndToEnd

  // ---- What the bank's transactions write ----

  predicate FineAt(ws: seq<Write>, k: nat)
    requires k < |ws|
  {
    && (ws[k].loc.off == COUNT ==> ws[k].val >= 1)
    && (ws[k].loc.off == NEXT && ws[k].val != 0 ==> Loc(Target(ws[k].val), COUNT) in Locs(ws))
  }

  /** No account count is set to zero, and a segment is linked together with its account count. */
  predicate Fine(ws: seq<Write>) {
    forall k :: 0 <= k < |ws| ==> FineAt(ws, k)
  }

  lemma {:induction false} LocsBoth(u: seq<Write>, v: seq<Write>)
    ensures Locs(u) <= Locs(u + v) && Locs(v) <= Locs(u + v)
  {
    LocsSplit(u + v, |u|);
    assert (u + v)[..|u|] == u && (u + v)[|u|..] == v;
  }

  lemma FineBoth(u: seq<Write>, v: seq<Write>)
    requires Fine(u) && Fine(v)
    ensures Fine(u + v)
  {
    LocsBoth(u, v);
    forall k | 0 <= k < |u + v| ensures FineAt(u + v, k) {
      if k < |u| { assert FineAt(u, k); } else { assert FineAt(v, k - |u|); }
    }
  }

  predicate InAccounts(l: Option<Loc>) {
    l.Some? ==> l.value.off >= FIRST
  }

  /** The pointers a body has found point to accounts, and the writes left are fine. */
  predicate WritesFine(b: Local) {
    match b
    case ShortCount(_, _, sender, recver, _) => InAccounts(sender) && InAccounts(recver)
    case ShortNext(_, _, sender, recver, _) => InAccounts(sender) && InAccounts(recver)
    case ShortSender(l, r) => l.off >= FIRST && r.off >= FIRST
    case ShortWrite(l, r, _) => l.off >= FIRST && r.off >= FIRST
    case ShortRecver(r) => r.off >= FIRST
    case _ => true
  }

  /** What the whole body will have written, as far as it is known. */
  function Written(b: Local, ops: seq<Op>): seq<Write> {
    StoresOf(ops) + if b.Emit? then b.ws else []
  }

  lemma WritesFineStep(p: Params, b: Local, v: Val)
    requires WritesFine(b) && !b.Emit? && (b.OpenSegment? ==> v >= 0)
    ensures WritesFine(Feed(p, b, v)) && (Feed(p, b, v).Emit? ==> Fine(Feed(p, b, v).ws))
  {
    if b.OpenSegment? {
      var ws := Feed(p, b, v).ws;
      LocsPrefix(ws, 1);
      assert ws[1].loc in Locs(ws);
    }
  }

  lemma {:induction false} BodyWritesFine(p: Params, start: Local, ops: seq<Op>)
    requires BankBody(start) && Follows(p, start, ops)
    ensures WritesFine(After(p, start, ops)) && Fine(Written(After(p, start, ops), ops))
  {
    if ops != [] {
      var n := |ops| - 1;
      BodyWritesFine(p, start, ops[..n]);
      var b := After(p, start, ops[..n]);
      WrittenStep(p, b, ops[..n], ops[n], ops);
    }
  }

  lemma WrittenStep(p: Params, b: Local, before: seq<Op>, o: Op, ops: seq<Op>)
    requires WritesFine(b) && Fine(Written(b, before)) && Answers(Pending(b), o) && ops == before + [o]
    ensures WritesFine(Feed(p, b, Answer(o))) && Fine(Written(Feed(p, b, Answer(o)), ops))
  {
    assert ops[..|ops| - 1] == before;
    var b' := Feed(p, b, Answer(o));
    if b.Emit? {
      assert Written(b', ops) == Written(b, before);
    } else {
      WritesFineStep(p, b, Answer(o));
      assert StoresOf(before) + [] == StoresOf(before);
      if o.Store? {
        assert Fine([Write(o.loc, o.val)]);
        FineBoth(StoresOf(before), [Write(o.loc, o.val)]);
      }
      if b'.Emit? { FineBoth(StoresOf(ops), b'.ws); } else { assert Written(b', ops) == StoresOf(ops); }
    }
  }

  /** A whole body of the bank writes no empty segment and links none without its account count. */
  lemma CommitWritesFine(p: Params, start: Local, ops: seq<Op>)
    requires BankBody(start) && Completes(p, start, ops)
    ensures Fine(StoresOf(ops))
  {
    BodyWritesFine(p, start, ops);
    BankSteps.ReturnIsEmit(After(p, start, ops));
    assert StoresOf(ops) + [] == StoresOf(ops);
  }

  // ---- A walk over mixed versions ----

  /** No read after read `k` is of a word in `ws`. */
  predicate Shunned(ops: seq<Op>, ws: seq<Write>, k: nat) {
    forall h :: k < h < |ops| && ops[h].Read? ==> ops[h].loc !in Locs(ws)
  }

  /** Read `k` returned what `m` holds, or a value that fine writes put there of which nothing is read later. */
  ghost predicate Viewed(ops: seq<Op>, m: Memory, k: nat)
    requires k < |ops| && ops[k].Read?
  {
    ops[k].val == m[ops[k].loc] ||
    exists ws :: Fine(ws) && Write(ops[k].loc, ops[k].val) in ws && Shunned(ops, ws, k)
  }

  ghost predicate View(ops: seq<Op>, m: Memory) {
    forall k :: 0 <= k < |ops| && ops[k].Read? && StoresOf(ops[..k]) == [] ==> Viewed(ops, m, k)
  }

  /** The loop over segments: about to read an account count, or a link. */
  predicate AtCount(b: Local) {
    b.AllocCount? || b.ShortCount?
  }

  predicate AtLink(b: Local) {
    b.AllocNext? || b.ShortNext?
  }

  /** Operations left after the loop, at most. */
  function Rest(b: Local): nat {
    match b
    case CloseParity(_, _, _) => 7
    case CloseAccount(_, _, _, _) => 6
    case UnlinkNext(_, _) => 5
    case UnlinkFree(_, _, _) => 4
    case UnlinkNull(_, _) => 3
    case UnlinkParity(_, _) => 2
    case OpenSegment(_) => 4
    case ShortSender(_, _) => 4
    case ShortWrite(_, _, _) => 3
    case ShortRecver(_) => 2
    case Emit(ws, _) => |ws|
    case CheckFirst => 1
    case _ => 0
  }

  predicate InLong(b: Local) {
    b.LongCount? || b.LongParity? || b.LongAccount? || b.LongNext?
  }

  ghost predicate SegmentIs(bank: Accounts, j: int, seg: nat) {
    0 <= j && AtSegment(bank, j, seg)
  }

  /** After `k` operations the body has walked `k / 2` segments of the bank, or the rest of its trace does not
      read the count of the segment it stands at, or it has left the loop. */
  ghost predicate OnTheWay(bank: Accounts, b: Local, ops: seq<Op>, k: nat) {
    if AtCount(b) then
      k <= 2 * |bank| &&
      ((k % 2 == 0 && SegmentIs(bank, k / 2, b.seg))
       || forall h :: k <= h < |ops| && ops[h].Read? ==> ops[h].loc != Loc(b.seg, COUNT))
    else if AtLink(b) then k % 2 == 1 && SegmentIs(bank, k / 2, b.seg)
    else !InLong(b) && k + Rest(b) <= 2 * |bank| + 7
  }

  lemma LinkStep(p: Params, bank: Accounts, m: Memory, b: Local, ops: seq<Op>, k: nat)
    requires Stored(m, bank) && k < |ops| && AtLink(b) && OnTheWay(bank, b, ops, k)
    requires Answers(Pending(b), ops[k]) && Viewed(ops, m, k)
    ensures OnTheWay(bank, Feed(p, b, ops[k].val), ops, k + 1)
  {
    var v := ops[k].val;
    if v != 0 {
      if v == m[Loc(b.seg, NEXT)] {
        BankSteps.StoredSegment(m, bank, k / 2);
        assert AtSegment(bank, k / 2 + 1, Target(v));
      } else {
        var ws :| Fine(ws) && Write(ops[k].loc, v) in ws && Shunned(ops, ws, k);
        var h :| 0 <= h < |ws| && ws[h] == Write(ops[k].loc, v);
        assert FineAt(ws, h);
      }
    }
  }

  lemma RestStep(p: Params, bank: Accounts, b: Local, ops: seq<Op>, k: nat)
    requires k < |ops| && OnTheWay(bank, b, ops, k) && !AtLink(b) && Answers(Pending(b), ops[k])
    ensures OnTheWay(bank, Feed(p, b, Answer(ops[k])), ops, k + 1)
    ensures AtCount(Feed(p, b, Answer(ops[k]))) || AtLink(Feed(p, b, Answer(ops[k]))) ==> AtCount(b)
  {
  }

  lemma WayStep(p: Params, bank: Accounts, m: Memory, b: Local, ops: seq<Op>, k: nat)
    requires Stored(m, bank) && View(ops, m) && k < |ops| && OnTheWay(bank, b, ops, k) && Answers(Pending(b), ops[k])
    requires AtCount(b) || AtLink(b) ==> StoresOf(ops[..k]) == []
    ensures OnTheWay(bank, Feed(p, b, Answer(ops[k])), ops, k + 1)
    ensures var b' := Feed(p, b, Answer(ops[k])); AtCount(b') || AtLink(b') ==> StoresOf(ops[..k + 1]) == []
  {
    assert ops[..k + 1][..k] == ops[..k];
    if AtLink(b) { LinkStep(p, bank, m, b, ops, k); } else { RestStep(p, bank, b, ops, k); }
  }

  /** Until it writes, an attempt walks the segments of one sound bank, in order. */
  lemma {:induction false} StaysOnTheWay(p: Params, start: Local, bank: Accounts, m: Memory, ops: seq<Op>, k: nat)
    requires Stored(m, bank) && BankBody(start) && !start.LongCount?
    requires Follows(p, start, ops) && View(ops, m) && k <= |ops|
    ensures Follows(p, start, ops[..k]) && OnTheWay(bank, After(p, start, ops[..k]), ops, k)
    ensures var b := After(p, start, ops[..k]); AtCount(b) || AtLink(b) ==> StoresOf(ops[..k]) == []
  {
    FollowsPrefix(p, start, ops, k);
    if k == 0 {
      assert AtSegment(bank, 0, 0);
    } else {
      StaysOnTheWay(p, start, bank, m, ops, k - 1);
      assert ops[..k][..k - 1] == ops[..k - 1];
      WayStep(p, bank, m, After(p, start, ops[..k - 1]), ops, k - 1);
    }
  }

  // ---- Accounts left to close ----

  /** Every segment passed after the first has accounts in it. */
  predicate HasAccounts(b: Local, k: nat) {
    match b
    case AllocCount(_, count, prev, _) => prev.Some? == (k > 0) && (prev == None ==> count == 0)
    case AllocNext(_, count, prev, _, n) => prev.Some? == (k > 1) && if prev == None then count == n else n >= 1
    case CloseParity(prev, _, left) => left >= 0 && (prev == None ==> left >= 2)
    case CloseAccount(prev, _, left, _) => left >= 0 && (prev == None ==> left >= 2)
    case _ => b.OpenSegment? || b.Emit? || b.UnlinkNext? || b.UnlinkFree? || b.UnlinkNull? || b.UnlinkParity?
  }

  /** A count read after the first is at least one: the segment has a predecessor in the bank, and no commit
      empties a segment that stays linked. */
  lemma CountIsPositive(p: Params, bank: Accounts, m: Memory, b: Local, ops: seq<Op>, k: nat)
    requires Sound(p, bank) && Stored(m, bank) && 0 < k < |ops| && b.AllocCount? && OnTheWay(bank, b, ops, k)
    requires Answers(Pending(b), ops[k]) && Viewed(ops, m, k)
    ensures ops[k].val >= 1
  {
    assert SegmentIs(bank, k / 2, b.seg);
    if ops[k].val == m[Loc(b.seg, COUNT)] {
      BankSteps.StoredSegment(m, bank, k / 2);
    } else {
      var ws :| Fine(ws) && Write(ops[k].loc, ops[k].val) in ws && Shunned(ops, ws, k);
      var h :| 0 <= h < |ws| && ws[h] == Write(ops[k].loc, ops[k].val);
      assert FineAt(ws, h);
    }
  }

  lemma AccountsStep(p: Params, b: Local, o: Op, k: nat)
    requires HasAccounts(b, k) && Answers(Pending(b), o) && (b.AllocCount? && k > 0 ==> Answer(o) >= 1)
    ensures HasAccounts(Feed(p, b, Answer(o)), k + 1)
  {
  }

  lemma {:induction false} KeepsAccounts(p: Params, start: Local, bank: Accounts, m: Memory, ops: seq<Op>, k: nat)
    requires Sound(p, bank) && Stored(m, bank) && BankBody(start) && start.AllocCount?
    requires Follows(p, start, ops) && View(ops, m) && k <= |ops|
    ensures HasAccounts(After(p, start, ops[..k]), k)
  {
    if k > 0 {
      KeepsAccounts(p, start, bank, m, ops, k - 1);
      assert ops[..k][..k - 1] == ops[..k - 1];
      FollowsPrefix(p, start, ops, k);
      StaysOnTheWay(p, start, bank, m, ops, k - 1);
      var b := After(p, start, ops[..k - 1]);
      if b.AllocCount? && k > 1 { CountIsPositive(p, bank, m, b, ops, k - 1); }
      AccountsStep(p, b, ops[k - 1], k - 1);
    }
  }

  lemma {:induction false} FollowsPrefix(p: Params, start: Local, ops: seq<Op>, k: nat)
    requires Follows(p, start, ops) && k <= |ops|
    ensures Follows(p, start, ops[..k])
  {
    if k < |ops| {
      FollowsPrefix(p, start, ops[..|ops| - 1], k);
      assert ops[..|ops| - 1][..k] == ops[..k];
    } else {
      assert ops[..k] == ops;
    }
  }

  /** Only alloc_tx can crash. */
  predicate CannotCrash(b: Local) {
    || b.LongCount? || b.LongParity? || b.LongAccount? || b.LongNext? || b.Emit?
    || b.ShortCount? || b.ShortNext? || b.ShortSender? || b.ShortWrite? || b.ShortRecver?
  }

  lemma {:induction false} OthersCannotCrash(p: Params, start: Local, ops: seq<Op>)
    requires Follows(p, start, ops) && CannotCrash(start)
    ensures CannotCrash(After(p, start, ops))
  {
    if ops != [] { OthersCannotCrash(p, start, ops[..|ops| - 1]); }
  }

  /** Whatever versions an attempt has seen, as long as each value is the one at its read version or one of a
      newer commit that it reads nothing else of. */
  lemma MixedViewsNeverCrash(p: Params, start: Local, bank: Accounts, m: Memory, ops: seq<Op>)
    requires Sound(p, bank) && Stored(m, bank) && BankBody(start) && Follows(p, start, ops) && View(ops, m)
    ensures Pending(After(p, start, ops)) != Crash
  {
    if start.AllocCount? {
      KeepsAccounts(p, start, bank, m, ops, |ops|);
      assert ops[..|ops|] == ops;
      AccountsAreSafe(After(p, start, ops), |ops|);
    } else {
      OthersCannotCrash(p, start, ops);
      OtherIsSafe(After(p, start, ops));
    }
  }

  lemma AccountsAreSafe(b: Local, k: nat)
    requires HasAccounts(b, k)
    ensures Pending(b) != Crash
  {
  }

  lemma OtherIsSafe(b: Local)
    requires CannotCrash(b)
    ensures Pending(b) != Crash
  {
  }

  /** Nor do they go on for ever: two operations a segment, and a bounded tail. */
  lemma MixedViewsEnd(p: Params, start: Local, bank: Accounts, m: Memory, ops: seq<Op>)
    requires Stored(m, bank) && BankBody(start) && !start.LongCount? && Follows(p, start, ops) && View(ops, m)
    ensures |ops| <= 2 * |bank| + 7
  {
    StaysOnTheWay(p, start, bank, m, ops, |ops|);
    assert ops[..|ops|] == ops;
  }

  // ---- On the machine ----

  /** Every commit newer than the init round is that of a whole body of the bank. */
  lemma LaterWritesFine(p: Params, run: seq<State>, i: nat, j: nat, bodies: seq<Local>, w: nat)
    requires IsRun(run) && i <= j < |run|
    requires SetUp(p, run[i], bodies) && Working(run[i], bodies) && Clients(p, run[j], bodies)
    requires w in run[j].log && w > run[i].clock
    ensures Fine(run[j].log[w].writes)
  {
    CommitKinds(p, run, i, j, bodies, w);
    RunInv(run, j);
    assert Serial(run[j], w);
    CommitWritesFine(p, bodies[run[j].log[w].tid], run[j].log[w].ops);
  }

  lemma LiveIsView(p: Params, run: seq<State>, i: nat, j: nat, bodies: seq<Local>, t: Tid)
    requires IsRun(run) && i <= j < |run|
    requires SetUp(p, run[i], bodies) && Working(run[i], bodies) && Clients(p, run[j], bodies)
    requires |run[i].txs| <= t < |run[j].txs| && IsLive(run[j].txs[t])
    ensures run[i].clock <= run[j].txs[t].rv
    ensures View(run[j].txs[t].ops, SerialMem(run[j].log, run[j].txs[t].rv))
  {
    RunEffects(run);
    BegunLater(run, i, j, t);
    RunInv(run, j);
    RunLive(run, j);
    var s, x := run[j], run[j].txs[t];
    assert LiveReads(s, t);
    forall k | 0 <= k < |x.ops| && x.ops[k].Read? && StoresOf(x.ops[..k]) == []
      ensures Viewed(x.ops, SerialMem(s.log, x.rv), k)
    {
      assert FromMemory(x, k) && LiveRead(s, x, k);
      SerialMemAt(s, x.rv, x.ops[k].loc);
      if x.ops[k].val != At(s.log, x.ops[k].loc, x.rv) {
        var w :| WrittenLater(s, x.ops[k].loc, x.ops[k].val, x.rv, w) && Avoids(x, s.log[w].writes, k);
        LaterWritesFine(p, run, i, j, bodies, w);
        assert Shunned(x.ops, s.log[w].writes, k);
      }
    }
  }

  /** In every run of bank transactions after the init round, at every moment, no running attempt of any
      read-write body is about to crash, whether it will commit or fail. */
  lemma AttemptNeverCrashes(p: Params, run: seq<State>, i: nat, j: nat, bodies: seq<Local>, t: Tid)
    requires IsRun(run) && i <= j < |run|
    requires SetUp(p, run[i], bodies) && Working(run[i], bodies) && Clients(p, run[j], bodies)
    requires |run[i].txs| <= t < |run[j].txs| && IsLive(run[j].txs[t])
    requires Follows(p, bodies[t], run[j].txs[t].ops)
    ensures Pending(After(p, bodies[t], run[j].txs[t].ops)) != Crash
  {
    var x := run[j].txs[t];
    LiveIsView(p, run, i, j, bodies, t);
    RunIsScenario(p, run, i, j, bodies);
    var bank := SerialBank(p, run[j].log, run[i].clock, bodies, x.rv);
    MixedViewsNeverCrash(p, bodies[t], bank, SerialMem(run[j].log, x.rv), x.ops);
  }
}
