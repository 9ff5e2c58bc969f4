/** The transaction bodies of grading/workload.hpp as code: loops over segments, locals updated in place,
    shared cells read and written one at a time.  Whatever its reads return and wherever it is cut off,
    each body performs exactly the operations of its program.  Alone on a memory that stores a sound bank
    it also terminates and leaves the bank its program promises. */
module BankCode {
  import opened Options
  import opened SharedMemory
  import opened Stm
  import opened StmTheorems
  import Bank
  import opened BankProgram
  import BankSteps
  import BankEndToEnd
  import opened BankRetry
  import opened BankChecker

  /** Local state of a body, shared memory, and the segments in use. */
  datatype Stage = Stage(b: Local, m: Memory, taken: set<nat>)

  /** A transaction's view of shared memory, with the trace of its operations.  `alone`: no other transaction
      runs.  Otherwise a read may fail, or return anything at all. */
  class Session {
    const p: Bank.Params
    const alone: bool
    var memory: Memory
    var nextSegment: nat
    ghost const body: Local
    ghost const origin: Memory
    ghost const used: set<nat>
    ghost var taken: set<nat>
    ghost var trace: seq<Op>
    ghost var path: seq<Stage>
    ghost var refused: bool  // a read has failed
    ghost var counts: nat    // account counts read, one for each segment passed

    /** The body has performed `trace` and stands in local state `b`. */
    ghost predicate At(b: Local)
      reads this
    {
      nextSegment > 0 && if alone then AtAlone(b) else Follows(p, body, trace) && After(p, body, trace) == b
    }

    ghost predicate AtAlone(b: Local)
      reads this
    {
      && Played(p, Stage(body, origin, used), path, trace)
      && path[|trace|] == Stage(b, memory, taken)
      && forall x :: x in taken ==> x < nextSegment
    }

    /** The body stands in a local state of its program at which it cannot go on: a read has failed, or the
        next thing would be a crash. */
    ghost predicate Underway()
      reads this
    {
      exists b :: At(b) && (refused || Pending(b) == Crash)
    }

    /** The body has been followed for `turns` segments and stands in a local state of its program. */
    ghost predicate CutOff(turns: nat)
      reads this
    {
      counts >= turns && exists b :: At(b)
    }

    constructor (p: Bank.Params, alone: bool, memory: Memory, nextSegment: nat, ghost body: Local, ghost used: set<nat>)
      requires nextSegment > 0 && forall x :: x in used ==> x < nextSegment
      ensures At(body) && this.p == p && this.alone == alone && this.memory == memory == origin
      ensures this.body == body && this.used == used == taken && this.nextSegment == nextSegment && trace == []
      ensures !refused && counts == 0
    {
      this.p, this.alone, this.memory, this.nextSegment := p, alone, memory, nextSegment;
      this.body, this.origin, this.used, this.taken := body, memory, used, used;
      this.trace, this.path, this.refused, this.counts := [], [Stage(body, memory, used)], false, 0;
    }

    ghost method Record(b: Local, o: Op)
      requires At(b) && Answers(Pending(b), o) && (alone ==> BankSteps.Served(o, memory, taken))
      modifies this`trace, this`path, this`taken
      ensures trace == old(trace) + [o]
      ensures if alone
              then Played(p, Stage(body, origin, used), path, trace)
                   && path[|trace|] == Stage(Feed(p, b, Answer(o)), BankSteps.Effects(memory, o), taken)
                   && taken == BankSteps.Grown(old(taken), o)
              else Follows(p, body, trace) && After(p, body, trace) == Feed(p, b, Answer(o))
    {
      if alone {
        var next := Stage(Feed(p, b, Answer(o)), BankSteps.Effects(memory, o), BankSteps.Grown(taken, o));
        PathGrows(p, Stage(body, origin, used), path, trace, o, next);
        path := path + [next];
        taken := next.taken;
      }
      assert (trace + [o])[..|trace|] == trace;
      trace := trace + [o];
    }

    method Read(ghost b: Local, l: Loc) returns (ok: bool, v: Val)
      requires At(b) && Pending(b) == Rd(l)
      modifies this`trace, this`path, this`taken, this`refused, this`counts
      ensures refused == (old(refused) || !ok)
      ensures counts == old(counts) + if ok && l.off == Bank.COUNT then 1 else 0
      ensures if ok then At(Feed(p, b, v)) && trace == old(trace) + [Op.Read(l, v, None)] else At(b) && trace == old(trace)
      ensures alone ==> ok && v == memory[l]
    {
      ok, v := true, memory[l];
      if !alone {
        ok, v := *, *;
      }
      if ok {
        Record(b, Op.Read(l, v, None));
        if l.off == Bank.COUNT { counts := counts + 1; }
      } else {
        refused := true;
      }
    }

    method Write(ghost b: Local, l: Loc, v: Val)
      requires At(b) && Pending(b) == Wr(l, v)
      modifies this`trace, this`path, this`taken, this`memory
      ensures memory == old(memory)[l := v] && At(Feed(p, b, 0)) && trace == old(trace) + [Store(l, v)]
    {
      Record(b, Store(l, v));
      memory := memory[l := v];
    }

    method Allocate(ghost b: Local) returns (seg: nat)
      requires At(b) && Pending(b) == New
      modifies this`trace, this`path, this`taken, this`nextSegment
      ensures At(Feed(p, b, seg)) && trace == old(trace) + [Alloc(seg)]
      ensures alone ==> seg == old(nextSegment) > 0
    {
      seg := nextSegment;
      if !alone {
        seg := *;
      }
      Record(b, Alloc(seg));
      nextSegment := nextSegment + 1;
    }

    method Release(ghost b: Local, seg: nat)
      requires At(b) && Pending(b) == Drop(seg)
      modifies this`trace, this`path, this`taken
      ensures At(Feed(p, b, 0)) && trace == old(trace) + [Free(seg)]
    {
      Record(b, Free(seg));
    }
  }

  /** The stages of a body that starts at `first` and performs `trace`. */
  ghost predicate Played(p: Bank.Params, first: Stage, path: seq<Stage>, trace: seq<Op>) {
    && |path| == |trace| + 1 && path[0] == first
    && forall k {:trigger PathStep(p, path, trace, k)} :: 0 <= k < |trace| ==> PathStep(p, path, trace, k)
  }

  ghost predicate PathStep(p: Bank.Params, path: seq<Stage>, trace: seq<Op>, k: nat)
    requires k < |trace| && k + 1 < |path|
  {
    Steps(p, path[k], trace[k], path[k + 1])
  }

  ghost predicate Steps(p: Bank.Params, s: Stage, o: Op, s': Stage) {
    && Answers(Pending(s.b), o) && BankSteps.Served(o, s.m, s.taken)
    && s' == Stage(Feed(p, s.b, Answer(o)), BankSteps.Effects(s.m, o), BankSteps.Grown(s.taken, o))
  }

  lemma PathGrows(p: Bank.Params, first: Stage, path: seq<Stage>, trace: seq<Op>, o: Op, next: Stage)
    requires Played(p, first, path, trace) && Steps(p, path[|trace|], o, next)
    ensures Played(p, first, path + [next], trace + [o])
  {
    forall k | 0 <= k <= |trace| ensures PathStep(p, path + [next], trace + [o], k) {
      if k < |trace| { assert PathStep(p, path, trace, k); }
    }
  }

  lemma PathShrinks(p: Bank.Params, first: Stage, path: seq<Stage>, trace: seq<Op>, path': seq<Stage>, trace': seq<Op>)
    requires Played(p, first, path, trace) && trace != []
    requires path' == path[..|trace|] && trace' == trace[..|trace| - 1]
    ensures Played(p, first, path', trace')
    ensures Steps(p, path'[|trace'|], trace[|trace'|], path[|trace|])
  {
    forall k | 0 <= k < |trace'| ensures PathStep(p, path', trace', k) { assert PathStep(p, path, trace, k); }
    assert PathStep(p, path, trace, |trace'|);
  }

  /** A played trace is one its program follows, and its reads are those of a body running alone. */
  lemma {:induction false} PlayedFollows(p: Bank.Params, first: Stage, path: seq<Stage>, trace: seq<Op>)
    requires Played(p, first, path, trace)
    ensures Follows(p, first.b, trace) && Legal(trace, first.m) && FreshAllocs(trace, first.taken)
    ensures path[|trace|] == Stage(After(p, first.b, trace), RunOps(trace, first.m), first.taken + AllocIds(trace))
  {
    if trace == [] {
      assert first.taken + {} == first.taken;
    } else {
      var n := |trace| - 1;
      PathShrinks(p, first, path, trace, path[..n + 1], trace[..n]);
      PlayedFollows(p, first, path[..n + 1], trace[..n]);
      OneMoreOp(p, first, path[n], trace[..n], trace[n], path[n + 1]);
      assert trace[..n] + [trace[n]] == trace;
    }
  }

  lemma OneMoreOp(p: Bank.Params, first: Stage, s: Stage, trace: seq<Op>, o: Op, s': Stage)
    requires Follows(p, first.b, trace) && Legal(trace, first.m) && FreshAllocs(trace, first.taken)
    requires s == Stage(After(p, first.b, trace), RunOps(trace, first.m), first.taken + AllocIds(trace))
    requires Steps(p, s, o, s')
    ensures var ops := trace + [o];
            && Follows(p, first.b, ops) && Legal(ops, first.m) && FreshAllocs(ops, first.taken)
            && s' == Stage(After(p, first.b, ops), RunOps(ops, first.m), first.taken + AllocIds(ops))
  {
    TraceGrows(trace, o, first.m, first.taken);
    assert (trace + [o])[..|trace|] == trace;
  }

  lemma TraceGrows(trace: seq<Op>, o: Op, m: Memory, used: set<nat>)
    requires Legal(trace, m) && FreshAllocs(trace, used)
    requires BankSteps.Served(o, RunOps(trace, m), used + AllocIds(trace))
    ensures Legal(trace + [o], m) && FreshAllocs(trace + [o], used)
  {
    var ops := trace + [o];
    forall k | 0 <= k < |ops| && ops[k].Read? ensures ops[k].val == RunOps(ops[..k], m)[ops[k].loc] {
      assert ops[..k] == if k == |trace| then trace else trace[..k];
    }
    forall k | 0 <= k < |ops| && ops[k].Alloc? ensures ops[k].seg > 0 && ops[k].seg !in used + AllocIds(ops[..k]) {
      assert ops[..k] == if k == |trace| then trace else trace[..k];
    }
  }

  /** A session of `body` that has yet to start; alone, on a memory that stores the sound bank. */
  ghost predicate Starts(s: Session, body: Local, bank: Bank.Accounts)
    reads s
  {
    && s.body == body && s.trace == [] && s.counts == 0 && s.At(body)
    && (s.alone ==> BankSteps.Ready(s.p, bank, s.origin, s.used))
  }

  /** The session has run its whole body, which returned `result` and took `bank` to `bank'`. */
  ghost predicate Ended(s: Session, bank: Bank.Accounts, bank': Bank.Accounts, result: bool)
    reads s
    requires Bank.Sound(s.p, bank)
  {
    && s.At(Emit([], result))
    && BankSteps.Ready(s.p, bank', s.memory, s.taken)
    && Outcome(s.p, s.body, bank, bank', result)
  }

  /** The code has run to its return, or was cut off where its program then stands. */
  ghost predicate Stopped(s: Session, done: bool, result: bool)
    reads s
  {
    if done then s.At(Emit([], result)) else !s.alone && s.Underway()
  }

  /** The same, or the code has been followed as long as it was to be. */
  ghost predicate Followed(s: Session, done: bool, result: bool, patience: nat)
    reads s
  {
    if done then s.At(Emit([], result)) else !s.alone && (s.Underway() || s.CutOff(patience))
  }

  lemma Finish(s: Session, bank: Bank.Accounts, result: bool) returns (bank': Bank.Accounts)
    requires s.alone && BankSteps.Ready(s.p, bank, s.origin, s.used) && BankBody(s.body)
    requires s.At(Emit([], result))
    ensures Ended(s, bank, bank', result)
  {
    PlayedFollows(s.p, Stage(s.body, s.origin, s.used), s.path, s.trace);
    bank' := BankSteps.BodyOutcome(s.p, s.body, bank, s.origin, s.used, s.trace);
  }

  lemma NoCrash(s: Session, bank: Bank.Accounts, b: Local)
    requires s.alone && BankSteps.Ready(s.p, bank, s.origin, s.used) && BankBody(s.body) && s.At(b)
    ensures Pending(b) != Crash
  {
    PlayedFollows(s.p, Stage(s.body, s.origin, s.used), s.path, s.trace);
    BankSteps.BodyNeverCrashes(s.p, s.body, bank, s.origin, s.used, s.trace);
  }

  /** Whatever the answers: the trace is one that the body's program follows, up to the local state. */
  lemma AtFollows(s: Session, b: Local)
    requires s.At(b)
    ensures Follows(s.p, s.body, s.trace) && After(s.p, s.body, s.trace) == b
  {
    if s.alone { PlayedFollows(s.p, Stage(s.body, s.origin, s.used), s.path, s.trace); }
  }

  /** What the cells of segment `j` hold. */
  lemma SegmentCells(s: Session, bank: Bank.Accounts, j: nat)
    requires Bank.Stored(s.memory, bank) && j < |bank|
    ensures s.memory[Loc(bank[j].id, Bank.COUNT)] == |bank[j].accounts|
    ensures s.memory[Loc(bank[j].id, Bank.NEXT)] == Bank.NextOf(bank, j)
    ensures Bank.NextOf(bank, j) == 0 <==> j + 1 == |bank|
  {
    assert Bank.SegmentAt(s.memory, bank, j);
  }

  /** The walk of long_tx has passed the first `j` segments, without a negative balance. */
  ghost predicate Passed(bank: Bank.Accounts, j: nat, count: nat, sum: int) {
    && j <= |bank| && Bank.NoDebt(bank[..j])
    && count == Bank.Count(bank[..j]) && sum == Bank.Worth(bank[..j])
  }

  lemma PassedMore(bank: Bank.Accounts, j: nat, count: nat, sum: int)
    requires Passed(bank, j, count, sum) && j < |bank| && NoneNegative(bank[j].accounts)
    ensures Passed(bank, j + 1, count + |bank[j].accounts|, sum + bank[j].parity + Bank.Sum(bank[j].accounts))
  {
    assert bank[..j + 1][..j] == bank[..j];
  }

  /** long_tx (lines 161-182), followed for `patience` segments when others run.  Alone on any stored bank,
      sound or not, it reports no violation if and only if there is none. */
  method LongTx(s: Session, patience: nat, ghost bank: Bank.Accounts) returns (done: bool, ok: bool, nbaccounts: nat)
    requires s.body == LongCount(0, 0, 0) && s.trace == [] && s.counts == 0 && s.At(LongCount(0, 0, 0))
    requires s.alone ==> Bank.Stored(s.memory, bank)
    modifies s
    ensures Followed(s, done, ok, patience) && s.memory == old(s.memory)
    ensures done ==> (ok <==> NoneNegative(BalancesIn(s.trace))
                              && ParitiesIn(s.trace) + Bank.Sum(BalancesIn(s.trace)) == s.p.initBalance * CountsIn(s.trace))
    ensures s.alone ==> done && (ok <==> Bank.NoDebt(bank) && Bank.Worth(bank) == s.p.initBalance * Bank.Count(bank))
    ensures s.alone && ok ==> nbaccounts == Bank.Count(bank)
    ensures s.alone && BankSteps.Ready(s.p, bank, s.origin, s.used) ==> ok && Ended(s, bank, bank, ok)
  {
    done, ok, nbaccounts := LongWalk(s, patience, bank);
    if done { ReportsTrace(s, ok); }
    if s.alone && BankSteps.Ready(s.p, bank, s.origin, s.used) {
      ghost var bank' := Finish(s, bank, ok);
    }
  }

  lemma ReportsTrace(s: Session, ok: bool)
    requires s.body == LongCount(0, 0, 0) && s.At(Emit([], ok))
    ensures ok <==> NoneNegative(BalancesIn(s.trace))
                    && ParitiesIn(s.trace) + Bank.Sum(BalancesIn(s.trace)) == s.p.initBalance * CountsIn(s.trace)
  {
    AtFollows(s, Emit([], ok));
    LongVerdict(s.p, s.trace);
  }

  /** Lines 163-181. */
  method LongWalk(s: Session, patience: nat, ghost bank: Bank.Accounts) returns (done: bool, ok: bool, count: nat)
    requires s.At(LongCount(0, 0, 0)) && s.counts == 0
    requires s.alone ==> Bank.Stored(s.memory, bank)
    modifies s`trace, s`path, s`taken, s`refused, s`counts
    ensures Followed(s, done, ok, patience)
    ensures s.alone ==> (ok <==> Bank.NoDebt(bank) && Bank.Worth(bank) == s.p.initBalance * Bank.Count(bank))
    ensures s.alone && ok ==> count == Bank.Count(bank)
  {
    var sum, start, turns := 0, Some(0), patience;
    ghost var j := 0;
    count := 0;
    assert bank[..0] == [];
    while start.Some?
      invariant if start.Some? then s.At(LongCount(count, sum, start.value)) else s.At(Emit([], sum == s.p.initBalance * count))
      invariant s.alone ==> Passed(bank, j, count, sum) && if start.Some? then AtSegment(bank, j, start.value) else j == |bank|
      invariant turns >= 0 && turns + s.counts >= patience
      decreases if start.Some? then if s.alone then |bank| - j else turns + 1 else 0
    {
      if !s.alone && turns == 0 {
        return false, false, count;
      }
      if s.alone { SegmentCells(s, bank, j); }
      var seg := start.value;
      var read, bad, next;
      read, count, sum, bad := LongSegment(s, bank, j, count, sum, seg);
      if !read || bad {
        return read, false, count;
      }
      if s.alone { PassedMore(bank, j, Bank.Count(bank[..j]), Bank.Worth(bank[..j])); }
      read, next := s.Read(LongNext(count, sum, seg), Loc(seg, Bank.NEXT));
      if !read {
        return false, false, count;
      }
      start := if next == 0 then None else Some(Bank.Target(next));
      j := j + 1;
      turns := if turns > 0 then turns - 1 else 0;
    }
    done, ok := true, sum == s.p.initBalance * count;
    assert s.alone ==> bank[..j] == bank;
  }

  /** Lines 167-176: one segment; `bad` reports a negative balance. */
  method LongSegment(s: Session, ghost bank: Bank.Accounts, ghost j: nat, count: nat, sum: int, seg: nat)
      returns (read: bool, count': nat, sum': int, bad: bool)
    requires s.At(LongCount(count, sum, seg))
    requires s.alone ==> Bank.Stored(s.memory, bank) && AtSegment(bank, j, seg)
    modifies s`trace, s`path, s`taken, s`refused, s`counts
    ensures if read then s.At(if bad then Emit([], false) else LongNext(count', sum', seg)) else !s.alone && s.Underway()
    ensures read ==> s.counts == old(s.counts) + 1
    ensures s.alone ==> (bad <==> !NoneNegative(bank[j].accounts))
    ensures s.alone && !bad ==>
              count' == count + |bank[j].accounts| && sum' == sum + bank[j].parity + Bank.Sum(bank[j].accounts)
  {
    var n;
    count', bad := count, false;
    read, n, sum' := LongHeader(s, bank, j, count, sum, seg);
    if !read {
      return;
    }
    count' := count + n;
    if s.alone { assert Bank.SegmentAt(s.memory, bank, j); }
    read, sum', bad := LongAccounts(s, if s.alone then bank[j].accounts else [], count', sum', seg, n);
  }

  /** Lines 168-170. */
  method LongHeader(s: Session, ghost bank: Bank.Accounts, ghost j: nat, count: nat, sum: int, seg: nat)
      returns (read: bool, n: nat, sum': int)
    requires s.At(LongCount(count, sum, seg))
    requires s.alone ==> Bank.Stored(s.memory, bank) && AtSegment(bank, j, seg)
    modifies s`trace, s`path, s`taken, s`refused, s`counts
    ensures if read then s.At(LongLoop(count + n, sum', seg, n, 0)) else !s.alone && s.Underway()
    ensures read ==> s.counts == old(s.counts) + 1
    ensures s.alone ==> n == |bank[j].accounts| && sum' == sum + bank[j].parity
  {
    if s.alone { assert Bank.SegmentAt(s.memory, bank, j); }
    read, n := ReadCount(s, count, sum, seg);
    sum' := sum;
    if read { read, sum' := ReadSum(s, count + n, sum, seg, n); }
  }

  method ReadCount(s: Session, ghost count: nat, ghost sum: int, seg: nat) returns (read: bool, n: nat)
    requires s.At(LongCount(count, sum, seg))
    modifies s`trace, s`path, s`taken, s`refused, s`counts
    ensures if read then s.At(LongParity(count + n, sum, seg, n)) else !s.alone && s.Underway()
    ensures read ==> s.counts == old(s.counts) + 1
    ensures s.alone ==> n == Index(s.memory[Loc(seg, Bank.COUNT)])
  {
    var v;
    ghost var b := LongCount(count, sum, seg);
    read, v := s.Read(b, Loc(seg, Bank.COUNT));
    n := Index(v);
    assert Feed(s.p, b, v) == LongParity(count + n, sum, seg, n);
  }

  method ReadSum(s: Session, ghost count: nat, sum: int, seg: nat, ghost n: nat) returns (read: bool, sum': int)
    requires s.At(LongParity(count, sum, seg, n))
    modifies s`trace, s`path, s`taken, s`refused, s`counts
    ensures if read then s.At(LongLoop(count, sum', seg, n, 0)) else !s.alone && s.Underway()
    ensures s.counts == old(s.counts)
    ensures s.alone ==> sum' == sum + s.memory[Loc(seg, Bank.PARITY)]
  {
    var parity;
    read, parity := s.Read(LongParity(count, sum, seg, n), Loc(seg, Bank.PARITY));
    sum' := sum + parity;
  }

  /** Lines 171-176; alone the balances are `xs`. */
  method LongAccounts(s: Session, ghost xs: seq<int>, ghost count: nat, sum: int, seg: nat, n: nat)
      returns (read: bool, sum': int, bad: bool)
    requires s.At(LongLoop(count, sum, seg, n, 0))
    requires s.alone ==> |xs| == n && forall i :: 0 <= i < n ==> s.memory[Loc(seg, Bank.FIRST + i)] == xs[i]
    modifies s`trace, s`path, s`taken, s`refused, s`counts
    ensures if read then s.At(if bad then Emit([], false) else LongNext(count, sum', seg)) else !s.alone && s.Underway()
    ensures s.counts == old(s.counts)
    ensures s.alone ==> (bad <==> !NoneNegative(xs)) && (!bad ==> sum' == sum + Bank.Sum(xs))
  {
    var i, local := 0, 0;
    read, sum', bad := true, sum, false;
    while i < n
      invariant 0 <= i <= n && read && !bad && s.At(LongLoop(count, sum', seg, n, i))
      invariant s.counts == old(s.counts)
      invariant s.alone ==> NoneNegative(xs[..i]) && sum' == sum + Bank.Sum(xs[..i])
    {
      read, local, bad := ReadBalance(s, count, sum', seg, n, i);
      assert s.alone ==> local == xs[i];
      if !read || bad {
        return;
      }
      if s.alone { BankSteps.SumPrefix(xs, i); }
      sum' := sum' + local;
      i := i + 1;
    }
    assert s.alone ==> xs[..n] == xs;
  }

  /** Lines 172-174. */
  method ReadBalance(s: Session, ghost count: nat, ghost sum: int, seg: nat, ghost n: nat, i: nat)
      returns (read: bool, local: int, bad: bool)
    requires i < n && s.At(LongLoop(count, sum, seg, n, i))
    modifies s`trace, s`path, s`taken, s`refused, s`counts
    ensures if !read then !s.alone && s.Underway()
            else s.At(if bad then Emit([], false) else LongLoop(count, sum + local, seg, n, i + 1))
    ensures s.counts == old(s.counts) && (read ==> (bad <==> local < 0))
    ensures s.alone ==> local == s.memory[Loc(seg, Bank.FIRST + i)]
  {
    read, local := s.Read(LongAccount(count, sum, seg, n, i), Account(seg, i));
    bad := read && local < 0;
  }

  /** alloc_tx (lines 186-226), followed for `patience` segments when others run. */
  method AllocTx(s: Session, trigger: int, patience: nat, ghost bank: Bank.Accounts)
      returns (done: bool, ghost bank': Bank.Accounts)
    requires Starts(s, AllocCount(trigger, 0, None, 0), bank)
    modifies s
    ensures Followed(s, done, true, patience)
    ensures s.alone ==> done && Ended(s, bank, bank', true)
    ensures s.alone ==>
              Bank.Flat(bank') == if Bank.Count(bank) > trigger && Bank.Count(bank) > 2 then Bank.Flat(bank)[..Bank.Count(bank) - 1]
                                  else Bank.Flat(bank) + [s.p.initBalance]
  {
    var count, prev, seg, n;
    bank' := bank;
    done, count, prev, seg, n := FindLastSegment(s, trigger, patience, bank);
    if done {
      done := AtLastSegment(s, trigger, count, prev, seg, n, bank);
    }
    if s.alone { bank' := Finish(s, bank, true); }
  }

  /** Lines 187-195 and 221-222: walk to the last segment, counting accounts. */
  method FindLastSegment(s: Session, trigger: int, patience: nat, ghost bank: Bank.Accounts)
      returns (done: bool, count: nat, prev: Option<nat>, seg: nat, n: nat)
    requires s.counts == 0 && s.At(AllocCount(trigger, 0, None, 0))
    requires s.alone ==> Bank.Stored(s.memory, bank)
    modifies s`trace, s`path, s`taken, s`refused, s`counts
    ensures if done then s.At(Feed(s.p, AllocNext(trigger, count, prev, seg, n), 0))
            else !s.alone && (s.Underway() || s.CutOff(patience))
  {
    var turns := patience;
    ghost var j := 0;
    count, prev, seg, n := 0, None, 0, 0;
    while true
      invariant s.At(AllocCount(trigger, count, prev, seg))
      invariant s.alone ==> Bank.Stored(s.memory, bank) && AtSegment(bank, j, seg)
      invariant turns >= 0 && turns + s.counts >= patience
      decreases if s.alone then |bank| - j else turns
    {
      if !s.alone && turns == 0 {
        done := false;
        return;
      }
      if s.alone { SegmentCells(s, bank, j); }
      var next;
      done, count, n, next := AllocSegment(s, trigger, count, prev, seg);
      if !done || next == 0 {
        return;
      }
      prev := Some(seg);
      seg := Bank.Target(next);
      j := j + 1;
      turns := if turns > 0 then turns - 1 else 0;
    }
  }

  /** Lines 192-195. */
  method AllocSegment(s: Session, ghost trigger: int, count: nat, ghost prev: Option<nat>, seg: nat)
      returns (done: bool, count': nat, n: nat, next: Val)
    requires s.At(AllocCount(trigger, count, prev, seg))
    modifies s`trace, s`path, s`taken, s`refused, s`counts
    ensures done ==> s.counts == old(s.counts) + 1
    ensures if !done then !s.alone && s.Underway()
            else if next == 0 then s.At(Feed(s.p, AllocNext(trigger, count', prev, seg, n), 0))
            else s.At(AllocCount(trigger, count', Some(seg), Bank.Target(next)))
    ensures s.alone ==> next == s.memory[Loc(seg, Bank.NEXT)]
  {
    var v;
    count', n, next := count, 0, 0;
    done, v := s.Read(AllocCount(trigger, count, prev, seg), Loc(seg, Bank.COUNT));
    if done {
      n := Index(v);
      count' := count + n;
      done, next := s.Read(AllocNext(trigger, count', prev, seg, n), Loc(seg, Bank.NEXT));
    }
  }

  /** Lines 196-219. */
  method AtLastSegment(s: Session, trigger: int, count: nat, prev: Option<nat>, seg: nat, n: nat, ghost bank: Bank.Accounts)
      returns (done: bool)
    requires s.At(Feed(s.p, AllocNext(trigger, count, prev, seg, n), 0))
    requires s.alone ==> BankSteps.Ready(s.p, bank, s.origin, s.used) && BankBody(s.body)
    modifies s
    ensures Stopped(s, done, true)
  {
    done := true;
    if count > trigger && count > 2 {
      done := CloseAccountOf(s, prev, seg, n - 1, bank);
    } else if n < s.p.perSegment {
      OpenAccount(s, seg, n);
    } else {
      OpenNextSegment(s, seg);
    }
  }

  method WriteLast(s: Session, l: Loc, v: Val)
    requires s.At(Emit([SharedMemory.Write(l, v)], true))
    modifies s`trace, s`path, s`taken, s`refused, s`counts, s`memory
    ensures s.At(Emit([], true)) && s.trace == old(s.trace) + [Store(l, v)]
  {
    ghost var ws := [SharedMemory.Write(l, v)];
    s.Write(Emit(ws, true), l, v);
    assert ws[1..] == [];
  }

  /** Lines 198-209: remove the last account; drop its segment when it was alone in it.  Stops where the
      index would wrap around or the null previous segment would be followed. */
  method CloseAccountOf(s: Session, prev: Option<nat>, seg: nat, left: int, ghost bank: Bank.Accounts)
      returns (done: bool)
    requires s.At(CloseParity(prev, seg, left))
    requires s.alone ==> BankSteps.Ready(s.p, bank, s.origin, s.used) && BankBody(s.body)
    modifies s`trace, s`path, s`taken, s`refused, s`counts, s`memory
    ensures Stopped(s, done, true)
  {
    var parity, funds;
    done, parity := s.Read(CloseParity(prev, seg, left), Loc(seg, Bank.PARITY));
    if !done {
      return;
    }
    if s.alone { NoCrash(s, bank, CloseAccount(prev, seg, left, parity)); }
    if left < 0 {
      return false;
    }
    done, funds := s.Read(CloseAccount(prev, seg, left, parity), Account(seg, left));
    if !done {
      return;
    }
    if s.alone { NoCrash(s, bank, Feed(s.p, CloseAccount(prev, seg, left, parity), funds)); }
    done := CloseOrDrop(s, prev, seg, left, parity, funds);
  }

  /** Lines 199-208. */
  method CloseOrDrop(s: Session, prev: Option<nat>, seg: nat, left: nat, parity: int, funds: int) returns (done: bool)
    requires s.At(Feed(s.p, CloseAccount(prev, seg, left, parity), funds))
    requires s.alone && left == 0 ==> prev.Some?
    modifies s`trace, s`path, s`taken, s`refused, s`counts, s`memory
    ensures Stopped(s, done, true)
  {
    var parity' := parity + funds - s.p.initBalance;
    if left > 0 {
      s.Write(Feed(s.p, CloseAccount(prev, seg, left, parity), funds), Loc(seg, Bank.COUNT), left);
      WriteLast(s, Loc(seg, Bank.PARITY), parity');
      done := true;
    } else if prev == None {
      done := false;
    } else {
      done := DropSegment(s, prev.value, parity');
    }
  }

  /** Lines 206-208. */
  method DropSegment(s: Session, before: nat, parity: int) returns (done: bool)
    requires s.At(UnlinkNext(before, parity))
    modifies s`trace, s`path, s`taken, s`refused, s`counts, s`memory
    ensures Stopped(s, done, true)
  {
    done := FreeNext(s, before, parity);
    if done {
      done := AddParity(s, before, parity);
    }
  }

  /** Line 208. */
  method AddParity(s: Session, before: nat, parity: int) returns (done: bool)
    requires s.At(UnlinkParity(before, parity))
    modifies s`trace, s`path, s`taken, s`refused, s`counts, s`memory
    ensures Stopped(s, done, true)
  {
    var prevParity;
    done, prevParity := s.Read(UnlinkParity(before, parity), Loc(before, Bank.PARITY));
    if done {
      WriteLast(s, Loc(before, Bank.PARITY), prevParity + parity);
    }
  }

  /** Shared<T*>::free: free what the pointer points to and store null. */
  method FreeNext(s: Session, before: nat, ghost parity: int) returns (done: bool)
    requires s.At(UnlinkNext(before, parity))
    modifies s`trace, s`path, s`taken, s`refused, s`counts, s`memory
    ensures if done then s.At(UnlinkParity(before, parity)) else !s.alone && s.Underway()
  {
    var gone;
    done, gone := s.Read(UnlinkNext(before, parity), Loc(before, Bank.NEXT));
    if !done {
      return;
    }
    s.Release(UnlinkFree(before, parity, Bank.Target(gone)), Bank.Target(gone));
    s.Write(UnlinkNull(before, parity), Loc(before, Bank.NEXT), 0);
  }

  /** Lines 212-213. */
  method OpenAccount(s: Session, seg: nat, n: nat)
    requires s.At(Emit([SharedMemory.Write(Account(seg, n), s.p.initBalance), SharedMemory.Write(Loc(seg, Bank.COUNT), n + 1)], true))
    modifies s`trace, s`path, s`taken, s`refused, s`counts, s`memory
    ensures s.At(Emit([], true))
  {
    ghost var ws := [SharedMemory.Write(Account(seg, n), s.p.initBalance), SharedMemory.Write(Loc(seg, Bank.COUNT), n + 1)];
    s.Write(Emit(ws, true), Account(seg, n), s.p.initBalance);
    assert ws[1..] == [ws[1]];
    WriteLast(s, Loc(seg, Bank.COUNT), n + 1);
  }

  /** Lines 215-217, with Shared<T*>::alloc. */
  method OpenNextSegment(s: Session, seg: nat)
    requires s.At(OpenSegment(seg))
    modifies s
    ensures s.At(Emit([], true))
  {
    var v := s.Allocate(OpenSegment(seg));
    var created := Bank.Target(v);
    ghost var ws := [SharedMemory.Write(Loc(seg, Bank.NEXT), v), SharedMemory.Write(Loc(created, Bank.COUNT), 1),
                     SharedMemory.Write(Account(created, 0), s.p.initBalance)];
    s.Write(Emit(ws, true), Loc(seg, Bank.NEXT), v);
    s.Write(Emit(ws[1..], true), Loc(created, Bank.COUNT), 1);
    assert ws[1..][1..] == [ws[2]];
    WriteLast(s, Account(created, 0), s.p.initBalance);
  }

  /** short_tx (lines 232-275), followed for `patience` segments when others run.  Besides its result it
      returns what it leaves in the two indices, which the closure captures by reference. */
  method ShortTx(s: Session, send: nat, recv: nat, patience: nat, ghost bank: Bank.Accounts)
      returns (done: bool, result: bool, sendId: nat, recvId: nat, ghost bank': Bank.Accounts)
    requires Starts(s, Start(send, recv), bank)
    modifies s
    ensures Followed(s, done, result, patience)
    ensures var c := Left(s.p, send, recv, s.trace); sendId == c.send && recvId == c.recv
    ensures s.alone ==> done && Ended(s, bank, bank', result)
  {
    var sender, recver;
    result, bank' := false, bank;
    done, sendId, recvId, sender, recver := FindAccounts(s, send, recv, patience, bank);
    if !done {
      return;
    }
    result := sender.Some? && recver.Some?;
    if result {
      done := MoveOneUnit(s, send, recv, sender.value, recver.value);
    }
    if s.alone { bank' := Finish(s, bank, result); }
  }

  /** Lines 234-263: walk the segments until both accounts are found or the last one is passed. */
  method FindAccounts(s: Session, send: nat, recv: nat, patience: nat, ghost bank: Bank.Accounts)
      returns (done: bool, sendId: nat, recvId: nat, sender: Option<Loc>, recver: Option<Loc>)
    requires s.body == Start(send, recv) && s.trace == [] && s.counts == 0 && s.At(Start(send, recv))
    requires s.alone ==> Bank.Stored(s.memory, bank)
    modifies s`trace, s`path, s`taken, s`refused, s`counts
    ensures Left(s.p, send, recv, s.trace) == Captured(sendId, recvId, sender, recver)
    ensures if !done then !s.alone && (s.Underway() || s.CutOff(patience))
            else if sender.Some? && recver.Some? then s.At(ShortSender(sender.value, recver.value))
            else s.At(Emit([], false))
  {
    var start: nat, turns := 0, patience;
    ghost var j := 0;
    sendId, recvId, sender, recver := send, recv, None, None;
    while true
      invariant s.At(ShortCount(sendId, recvId, sender, recver, start))
      invariant Left(s.p, send, recv, s.trace) == Captured(sendId, recvId, sender, recver)
      invariant s.alone ==> Bank.Stored(s.memory, bank) && AtSegment(bank, j, start)
      invariant sender == None || recver == None
      invariant turns >= 0 && turns + s.counts >= patience
      decreases if s.alone then |bank| - j else turns
    {
      if !s.alone && turns == 0 {
        done := false;
        return;
      }
      if s.alone { SegmentCells(s, bank, j); }
      var next;
      done, next, sendId, sender, recvId, recver := ShortSegment(s, send, recv, sendId, sender, recvId, recver, start);
      if !done || (sender.Some? && recver.Some?) || next == 0 {
        return;
      }
      start := Bank.Target(next);
      j := j + 1;
      turns := if turns > 0 then turns - 1 else 0;
    }
  }

  /** Lines 239-262: one turn of the walk. */
  method ShortSegment(s: Session, ghost send: nat, ghost recv: nat,
                      sendId: nat, sender: Option<Loc>, recvId: nat, recver: Option<Loc>, seg: nat)
      returns (done: bool, next: Val, sendId': nat, sender': Option<Loc>, recvId': nat, recver': Option<Loc>)
    requires s.At(ShortCount(sendId, recvId, sender, recver, seg)) && s.body == Start(send, recv)
    requires Left(s.p, send, recv, s.trace) == Captured(sendId, recvId, sender, recver)
    requires sender == None || recver == None
    modifies s`trace, s`path, s`taken, s`refused, s`counts
    ensures Left(s.p, send, recv, s.trace) == Captured(sendId', recvId', sender', recver')
    ensures done ==> s.counts == old(s.counts) + 1
    ensures if !done then !s.alone && s.Underway()
            else if sender'.Some? && recver'.Some? then s.At(ShortSender(sender'.value, recver'.value))
            else if next == 0 then s.At(Emit([], false))
            else s.At(ShortCount(sendId', recvId', sender', recver', Bank.Target(next)))
    ensures s.alone ==> (sender'.Some? && recver'.Some?) || next == s.memory[Loc(seg, Bank.NEXT)]
  {
    var n, found;
    next, sendId', sender', recvId', recver' := 0, sendId, sender, recvId, recver;
    done, n := CountOf(s, send, recv, sendId, recvId, sender, recver, seg);
    if !done {
      return;
    }
    sendId', sender', recvId', recver', found := Look(sendId, sender, recvId, recver, seg, n);
    if !found {
      done, next := LinkOf(s, send, recv, sendId', recvId', sender', recver', seg);
    }
  }

  /** Lines 242-259: look for the missing accounts in a segment of `n`; `found` ends the walk. */
  method Look(send: nat, sender: Option<Loc>, recv: nat, recver: Option<Loc>, seg: nat, n: nat)
      returns (sendId: nat, sender': Option<Loc>, recvId: nat, recver': Option<Loc>, found: bool)
    requires sender == None || recver == None
    ensures Captured(sendId, recvId, sender', recver') == Pass(Captured(send, recv, sender, recver), seg, n)
    ensures found <==> sender'.Some? && recver'.Some?
    ensures FeedShort(ShortCount(send, recv, sender, recver, seg), n) ==
            if found then ShortSender(sender'.value, recver'.value) else ShortNext(sendId, recvId, sender', recver', seg)
  {
    sendId, sender', recvId, recver', found := send, sender, recv, recver, false;
    if sender' == None {
      if sendId < n {
        sender' := Some(Account(seg, sendId));
        if recver'.Some? {
          found := true;
          return;
        }
      } else {
        sendId := sendId - n;
      }
    }
    if recver' == None {
      if recvId < n {
        recver' := Some(Account(seg, recvId));
        found := sender'.Some?;
      } else {
        recvId := recvId - n;
      }
    }
  }

  /** Lines 240-241: the captured variables are then to be updated for the count read. */
  method CountOf(s: Session, ghost send: nat, ghost recv: nat, ghost sendId: nat, ghost recvId: nat,
                 ghost sender: Option<Loc>, ghost recver: Option<Loc>, seg: nat) returns (done: bool, n: nat)
    requires s.At(ShortCount(sendId, recvId, sender, recver, seg)) && s.body == Start(send, recv)
    requires Left(s.p, send, recv, s.trace) == Captured(sendId, recvId, sender, recver)
    modifies s`trace, s`path, s`taken, s`refused, s`counts
    ensures if done then s.At(FeedShort(ShortCount(sendId, recvId, sender, recver, seg), n))
                           && Left(s.p, send, recv, s.trace) == Pass(Captured(sendId, recvId, sender, recver), seg, n)
            else !s.alone && s.Underway() && Left(s.p, send, recv, s.trace) == Captured(sendId, recvId, sender, recver)
    ensures done ==> s.counts == old(s.counts) + 1
    ensures s.alone ==> n == Index(s.memory[Loc(seg, Bank.COUNT)])
  {
    ghost var b, before := ShortCount(sendId, recvId, sender, recver, seg), s.trace;
    AtFollows(s, b);
    var v;
    done, v := s.Read(b, Loc(seg, Bank.COUNT));
    n := Index(v);
    if done { LeftGrows(s.p, send, recv, before, Op.Read(Loc(seg, Bank.COUNT), v, None), b); }
  }

  /** Line 260. */
  method LinkOf(s: Session, ghost send: nat, ghost recv: nat, ghost sendId: nat, ghost recvId: nat,
                ghost sender: Option<Loc>, ghost recver: Option<Loc>, seg: nat) returns (done: bool, next: Val)
    requires s.At(ShortNext(sendId, recvId, sender, recver, seg)) && s.body == Start(send, recv)
    modifies s`trace, s`path, s`taken, s`refused, s`counts
    ensures if !done then !s.alone && s.Underway()
            else if next == 0 then s.At(Emit([], false))
            else s.At(ShortCount(sendId, recvId, sender, recver, Bank.Target(next)))
    ensures Left(s.p, send, recv, s.trace) == old(Left(s.p, send, recv, s.trace))
    ensures s.counts == old(s.counts)
    ensures s.alone ==> next == s.memory[Loc(seg, Bank.NEXT)]
  {
    ghost var b, before := ShortNext(sendId, recvId, sender, recver, seg), s.trace;
    AtFollows(s, b);
    done, next := s.Read(b, Loc(seg, Bank.NEXT));
    if done { LeftGrows(s.p, send, recv, before, Op.Read(Loc(seg, Bank.NEXT), next, None), b); }
  }

  /** Only a count read in the loop changes what is captured. */
  lemma LeftGrows(p: Bank.Params, send: nat, recv: nat, ops: seq<Op>, o: Op, b: Local)
    requires b == After(p, Start(send, recv), ops)
    ensures Left(p, send, recv, ops + [o]) ==
            if b.ShortCount? then Pass(Left(p, send, recv, ops), b.seg, Index(Answer(o))) else Left(p, send, recv, ops)
  {
    assert (ops + [o])[..|ops|] == ops;
  }

  /** Lines 265-272. */
  method MoveOneUnit(s: Session, ghost send: nat, ghost recv: nat, sender: Loc, recver: Loc) returns (done: bool)
    requires s.At(ShortSender(sender, recver)) && s.body == Start(send, recv)
    modifies s`trace, s`path, s`taken, s`refused, s`counts, s`memory
    ensures Stopped(s, done, true)
    ensures Left(s.p, send, recv, s.trace) == old(Left(s.p, send, recv, s.trace))
  {
    var funds;
    ghost var b, before := ShortSender(sender, recver), s.trace;
    AtFollows(s, b);
    done, funds := s.Read(b, sender);
    if !done {
      return;
    }
    LeftGrows(s.p, send, recv, before, Op.Read(sender, funds, None), b);
    if funds > 0 {
      b, before := ShortWrite(sender, recver, funds), s.trace;
      AtFollows(s, b);
      s.Write(b, sender, funds - 1);
      LeftGrows(s.p, send, recv, before, Store(sender, funds - 1), b);
      done := Receive(s, send, recv, recver);
    }
  }

  /** Line 271. */
  method Receive(s: Session, ghost send: nat, ghost recv: nat, recver: Loc) returns (done: bool)
    requires s.At(ShortRecver(recver)) && s.body == Start(send, recv)
    modifies s`trace, s`path, s`taken, s`refused, s`counts, s`memory
    ensures Stopped(s, done, true)
    ensures Left(s.p, send, recv, s.trace) == old(Left(s.p, send, recv, s.trace))
  {
    var balance;
    ghost var b, before := ShortRecver(recver), s.trace;
    AtFollows(s, b);
    done, balance := s.Read(b, recver);
    if !done {
      return;
    }
    LeftGrows(s.p, send, recv, before, Op.Read(recver, balance, None), b);
    b, before := Emit([SharedMemory.Write(recver, balance + 1)], true), s.trace;
    AtFollows(s, b);
    WriteLast(s, recver, balance + 1);
    LeftGrows(s.p, send, recv, before, Store(recver, balance + 1), b);
  }

  /** The first transaction of init (lines 281-286). */
  method InitTx(s: Session)
    requires s.body == InitBody(s.p) && s.trace == [] && s.At(InitBody(s.p))
    requires s.alone ==> s.memory == Zeroed() && s.p.perSegment > 0
    modifies s
    ensures s.At(Emit([], true))
    ensures s.alone ==> BankSteps.Ready(s.p, BankEndToEnd.FirstBank(s.p), s.memory, {0})
  {
    ghost var ws := InitBody(s.p).ws;
    s.Write(Emit(ws, true), Loc(0, Bank.COUNT), s.p.perSegment);
    InitAccounts(s, ws[1..]);
    if s.alone { InitLeaves(s, ws); }
  }

  /** Lines 284-285. */
  method InitAccounts(s: Session, ghost ws: seq<Write>)
    requires |ws| == s.p.perSegment && s.At(Emit(ws, true))
    requires forall i :: 0 <= i < |ws| ==> ws[i] == SharedMemory.Write(Account(0, i), s.p.initBalance)
    modifies s`trace, s`path, s`taken, s`refused, s`counts, s`memory
    ensures s.At(Emit([], true))
  {
    var i := 0;
    assert ws[0..] == ws;
    while i < s.p.perSegment
      invariant 0 <= i <= s.p.perSegment && s.At(Emit(ws[i..], true))
    {
      InitAccount(s, ws, i);
      i := i + 1;
    }
  }

  method InitAccount(s: Session, ghost ws: seq<Write>, i: nat)
    requires i < |ws| && s.At(Emit(ws[i..], true)) && ws[i] == SharedMemory.Write(Account(0, i), s.p.initBalance)
    modifies s`trace, s`path, s`taken, s`refused, s`counts, s`memory
    ensures s.At(Emit(ws[i + 1..], true))
  {
    s.Write(Emit(ws[i..], true), Account(0, i), s.p.initBalance);
    assert ws[i..][1..] == ws[i + 1..];
  }

  lemma InitLeaves(s: Session, ws: seq<Write>)
    requires s.alone && s.body == InitBody(s.p) && ws == InitBody(s.p).ws && s.origin == Zeroed() && s.p.perSegment > 0
    requires s.At(Emit([], true))
    ensures BankSteps.Ready(s.p, BankEndToEnd.FirstBank(s.p), s.memory, {0})
  {
    PlayedFollows(s.p, Stage(s.body, s.origin, s.used), s.path, s.trace);
    forall l: Loc ensures s.memory[l] == Overlay(ws, l, 0) {
      BankEndToEnd.InitTrace(s.p, s.trace, s.origin, l);
    }
    BankEndToEnd.InitedIsStored(s.p, s.memory);
  }
}
