/** The code of 358982/Transaction.cpp, with its loops and private fields, running on a region whose
    other transactions may move between any two accesses to shared memory.  Every method is proved to
    perform a run of the step machine, so the theorems about runs hold of the code. */
module TransactionCode {
  import opened Options
  import opened SharedMemory
  import opened Stm
  import opened StmInvariant
  import opened StmSteps
  import opened StmTheorems

  /** Everything the threads of a program share, and the run that led to it. */
  class Region {
    var shared: State
    ghost var run: seq<State>

    ghost predicate Valid()
      reads this
    {
      IsRun(run) && run[|run| - 1] == shared
    }

    constructor (zeroed: Cells)
      requires zeroed == FreshCells()
      ensures Valid() && shared == Initial()
    {
      shared := State(0, 1, zeroed, [], map[]);
      run := [Initial()];
    }

    /** One step of the machine, whose outcome the caller has computed. */
    method Move(a: Action, s': State)
      requires Valid() && Enabled(shared, a) && s' == Do(shared, a)
      modifies this
      ensures Valid() && shared == s' && run == old(run) + [s']
    {
      shared := s';
      run := run + [s'];
      forall i | 0 <= i < |run| - 1 ensures StepAt(run, i) {
        if i < |run| - 2 { assert StepAt(old(run), i); }
      }
    }

    /** Any number of steps of transactions other than `me`. */
    method Interfere(me: Tid)
      requires Valid() && me < |shared.txs|
      modifies this
      ensures Valid() && old(run) <= run
      ensures me < |shared.txs| && shared.txs[me] == old(shared.txs[me])
    {
      var steps: nat := *;
      while steps > 0
        invariant Valid() && old(run) <= run
        invariant me < |shared.txs| && shared.txs[me] == old(shared.txs[me])
      {
        var a: Action := *;
        if Enabled(shared, a) && Mover(shared, a) != me {
          RunInv(run, |run| - 1);
          DoOk(shared, a);
          Move(a, Do(shared, a));
        }
        steps := steps - 1;
      }
    }
  }

  // ---- What makes an operation fail, said of the states of a run ----

  ghost predicate FreeAt(run: seq<State>, k: nat, l: Loc, rv: nat)
    requires k < |run|
  {
    !run[k].cells[l].locked && run[k].cells[l].version <= rv
  }

  /** In some state from number `n` on, the word is free and no newer than `rv` if and only if `free`. */
  ghost predicate Found(run: seq<State>, n: int, l: Loc, rv: nat, free: bool) {
    exists k: nat :: n <= k < |run| && (free <==> FreeAt(run, k, l, rv))
  }

  /** In some state from number `n` on, one of the words is locked or newer than `rv`. */
  ghost predicate OneBlocked(run: seq<State>, n: int, words: seq<Loc>, rv: nat) {
    exists i: nat :: i < |words| && Found(run, n, words[i], rv, false)
  }

  /** The word was refused at the states and read versions of `rs`, in this order; each read version but the
      first is at least the clock of the refusal before. */
  ghost predicate Refused(run: seq<State>, n: int, l: Loc, rs: seq<(nat, nat)>) {
    && (forall m {:trigger rs[m]} :: 0 <= m < |rs| ==> n <= rs[m].0 < |run| && !FreeAt(run, rs[m].0, l, rs[m].1))
    && forall m, h :: 0 <= m < h < |rs| ==> rs[m].0 < rs[h].0 && run[rs[m].0].clock <= rs[h].1
  }

  /** Why a read-only read fails: a word read before is locked or newer than the read version, or the word
      itself was refused as often as the code tries, although the read version was brought up to date in
      between. */
  ghost predicate Denied(run: seq<State>, n: int, l: Loc, words: seq<Loc>, rv: nat) {
    || OneBlocked(run, n, words, rv)
    || exists rs: seq<(nat, nat)> :: |rs| == RO_RETRIES && Refused(run, n, l, rs)
  }

  /** The word holds `v` in some state from number `n` on, and is free and old enough in a later one. */
  ghost predicate CopiedThenFree(run: seq<State>, n: int, l: Loc, v: Val, rv: nat) {
    exists k: nat, h: nat :: n <= k <= h < |run| && run[k].cells[l].val == v && FreeAt(run, h, l, rv)
  }

  /** The word is newer than `rv`, or somebody else holds it. */
  ghost predicate Overtaken(run: seq<State>, k: nat, l: Loc, rv: nat, me: Tid)
    requires k < |run|
  {
    run[k].cells[l].version > rv || run[k].cells[l].owner !in {None, Some(me)}
  }

  ghost predicate ReadLost(run: seq<State>, n: int, words: seq<Loc>, rv: nat, me: Tid) {
    exists i: nat, k: nat :: i < |words| && n <= k < |run| && Overtaken(run, k, words[i], rv, me)
  }

  /** Somebody else holds the word at state `h`, or its version is not the one at state `k`. */
  ghost predicate Taken(run: seq<State>, k: nat, h: nat, l: Loc, me: Tid)
    requires k < |run| && h < |run|
  {
    run[h].cells[l].owner !in {None, Some(me)} || run[h].cells[l].version != run[k].cells[l].version
  }

  ghost predicate LockLost(run: seq<State>, n: int, ws: seq<Write>, me: Tid) {
    exists i: nat, k: nat, h: nat :: i < |ws| && n <= k <= h < |run| && Taken(run, k, h, ws[i].loc, me)
  }

  lemma FoundLater(run: seq<State>, run': seq<State>, n: int, n': int, l: Loc, rv: nat, free: bool)
    requires run <= run' && n' <= n && Found(run, n, l, rv, free)
    ensures Found(run', n', l, rv, free)
  {
    var k: nat :| n <= k < |run| && (free <==> FreeAt(run, k, l, rv));
    assert free <==> FreeAt(run', k, l, rv);
  }

  lemma Blocks(run: seq<State>, n: int, words: seq<Loc>, rv: nat, i: nat, k: nat)
    requires n <= k < |run| && i < |words| && !FreeAt(run, k, words[i], rv)
    ensures OneBlocked(run, n, words, rv)
  {
    assert Found(run, n, words[i], rv, false);
  }

  lemma BlockedLater(run: seq<State>, run': seq<State>, n: int, n': int, words: seq<Loc>, rv: nat)
    requires run <= run' && n' <= n && OneBlocked(run, n, words, rv)
    ensures OneBlocked(run', n', words, rv)
  {
    var i: nat :| i < |words| && Found(run, n, words[i], rv, false);
    FoundLater(run, run', n, n', words[i], rv, false);
  }

  lemma RefusedLater(run: seq<State>, run': seq<State>, n: int, n': int, l: Loc, rs: seq<(nat, nat)>)
    requires run <= run' && n' <= n && Refused(run, n, l, rs)
    ensures Refused(run', n', l, rs)
  {
    forall m | 0 <= m < |rs| ensures n' <= rs[m].0 < |run'| && !FreeAt(run', rs[m].0, l, rs[m].1) {
      assert !FreeAt(run, rs[m].0, l, rs[m].1);
    }
  }

  lemma DeniedLater(run: seq<State>, run': seq<State>, n: int, n': int, l: Loc, words: seq<Loc>, rv: nat)
    requires run <= run' && n' <= n && Denied(run, n, l, words, rv)
    ensures Denied(run', n', l, words, rv)
  {
    if OneBlocked(run, n, words, rv) {
      BlockedLater(run, run', n, n', words, rv);
    } else {
      var rs: seq<(nat, nat)> :| |rs| == RO_RETRIES && Refused(run, n, l, rs);
      RefusedLater(run, run', n, n', l, rs);
    }
  }

  /** A read-only read after the refusals `rs`: `v` was copied at state `copied`, and the read version is at
      least the clock of each refusal. */
  ghost predicate Tried(run: seq<State>, n: int, l: Loc, rs: seq<(nat, nat)>, copied: nat, v: Val, rv: nat) {
    && n <= copied < |run| && run[copied].cells[l].val == v
    && Refused(run, n, l, rs)
    && forall m {:trigger rs[m]} :: 0 <= m < |rs| ==> rs[m].0 < copied && run[rs[m].0].clock <= rv
  }

  /** The check at state `checked` refuses too. */
  lemma OneMoreRefusal(run: seq<State>, run': seq<State>, n: int, l: Loc, rs: seq<(nat, nat)>, copied: nat, v: Val, rv: nat,
                       checked: nat)
    requires Tried(run, n, l, rs, copied, v, rv) && run <= run' && |run| <= checked + 1 <= |run'|
    requires !FreeAt(run', checked, l, rv)
    ensures Refused(run', n, l, rs + [(checked, rv)])
  {
    RefusedLater(run, run', n, n, l, rs);
  }

  /** Then the read version is brought up to date, and the word is copied again. */
  lemma TriedAgain(run: seq<State>, run': seq<State>, n: int, l: Loc, rs: seq<(nat, nat)>, checked: nat, copied: nat, v: Val, rv: nat)
    requires run <= run' && Refused(run, n, l, rs) && checked < |run| && forall m :: 0 <= m < |rs| ==> rs[m].0 <= checked
    requires forall k: nat :: k <= checked ==> run[k].clock <= rv
    requires checked < copied < |run'| && n <= copied && run'[copied].cells[l].val == v
    ensures Tried(run', n, l, rs, copied, v, rv)
  {
    RefusedLater(run, run', n, n, l, rs);
  }

  lemma ReadLostLater(run: seq<State>, run': seq<State>, n: int, n': int, words: seq<Loc>, rv: nat, me: Tid)
    requires run <= run' && n' <= n && ReadLost(run, n, words, rv, me)
    ensures ReadLost(run', n', words, rv, me)
  {
    var i: nat, k: nat :| i < |words| && n <= k < |run| && Overtaken(run, k, words[i], rv, me);
    assert Overtaken(run', k, words[i], rv, me);
  }

  lemma LockLostLater(run: seq<State>, run': seq<State>, n: int, n': int, ws: seq<Write>, me: Tid)
    requires run <= run' && n' <= n && LockLost(run, n, ws, me)
    ensures LockLost(run', n', ws, me)
  {
    var i: nat, k: nat, h: nat :| i < |ws| && n <= k <= h < |run| && Taken(run, k, h, ws[i].loc, me);
    assert Taken(run', k, h, ws[i].loc, me);
  }

  lemma LostEarlier(run: seq<State>, n: int, n': int, ws: seq<Write>, words: seq<Loc>, rv: nat, me: Tid)
    requires n' <= n && (LockLost(run, n, ws, me) || ReadLost(run, n, words, rv, me))
    ensures LockLost(run, n', ws, me) || ReadLost(run, n', words, rv, me)
  {
  }

  lemma ClockGrows(run: seq<State>, k: nat, h: nat)
    requires IsRun(run) && k <= h < |run|
    ensures run[k].clock <= run[h].clock
  {
    RunEffects(run);
    BegunLater(run, k, h, 0);
  }

  class Transaction {
    const region: Region
    const tid: Tid
    const isRo: bool
    var readVersion: nat
    var writeVersion: int
    var readSet: seq<Loc>
    var writeSet: seq<Write>
    var lockedSet: set<Loc>
    var trace: seq<Op>  // what the client has seen

    function Fields(pc: Pc): Tx
      reads this
    {
      Tx(isRo, readVersion, writeVersion, readSet, writeSet, lockedSet, pc, trace)
    }

    /** The region knows this transaction to be at `pc`. */
    ghost predicate In(pc: Pc)
      reads this, region
    {
      && region.Valid()
      && tid < |region.shared.txs|
      && region.shared.txs[tid] == Fields(pc)
    }

    /** The shared state after this transaction's fields have reached `pc`. */
    function Moved(pc: Pc): State
      reads this, region
      requires tid < |region.shared.txs|
    {
      Put(region.shared, tid, Fields(pc))
    }

    /** Transaction::Transaction (lines 16-23): load the clock. */
    constructor (region: Region, ro: bool)
      requires region.Valid()
      modifies region
      ensures this.region == region && isRo == ro && In(Idle)
      ensures old(region.run) <= region.run
      ensures readVersion == old(region.shared.clock) && trace == []
    {
      this.region := region;
      tid := |region.shared.txs|;
      isRo := ro;
      readVersion := region.shared.clock;
      writeVersion := -1;
      readSet, writeSet, lockedSet, trace := [], [], {}, [];
      new;
      region.Move(Begin(ro), region.shared.(txs := region.shared.txs + [Fields(Idle)]));
    }

    /** Transaction::write (lines 38-55): append one redo-log entry per word. */
    method WriteWords(target: seq<Loc>, source: seq<Val>)
      requires In(Idle) && !isRo && |target| == |source|
      modifies this`writeSet, this`trace, region
      ensures In(Idle) && old(region.run) <= region.run
      ensures |writeSet| == |old(writeSet)| + |source| && old(writeSet) <= writeSet
      ensures forall k :: 0 <= k < |source| ==> writeSet[|old(writeSet)| + k] == Write(target[k], source[k])
    {
      var i := 0;
      while i < |source|
        invariant 0 <= i <= |source| && In(Idle) && old(region.run) <= region.run
        invariant |writeSet| == |old(writeSet)| + i && old(writeSet) <= writeSet
        invariant forall k :: 0 <= k < i ==> writeSet[|old(writeSet)| + k] == Write(target[k], source[k])
      {
        region.Interfere(tid);
        writeSet := writeSet + [Write(target[i], source[i])];
        trace := trace + [Store(target[i], source[i])];
        region.Move(Invoke(tid, WriteWord(target[i], source[i])), Moved(Idle));
        i := i + 1;
      }
    }

    /** Transaction::read_write_read (lines 152-180).  On success the client has, word by word, its own
        newest pending write or what it found in memory. */
    method ReadWriteRead(source: seq<Loc>) returns (ok: bool, target: seq<Val>)
      requires In(Idle) && !isRo
      modifies this`readSet, this`trace, region
      ensures old(region.run) <= region.run
      ensures In(if ok then Idle else Finished(false))
      ensures ok ==> |target| == |source| && trace == old(trace) + Observed(source, target)
      ensures ok ==> OwnWritesWin(writeSet, source, target)
      ensures !ok ==> OneBlocked(region.run, |old(region.run)| - 1, source, readVersion)
    {
      target := [];
      var i := 0;
      ghost var was, seen := region.run, trace;
      while i < |source|
        invariant In(Idle) && was <= region.run && Answered(writeSet, source, i, target, seen, trace)
      {
        var v: Val;
        ghost var n := |region.run| - 1;
        ok, v := ReadWriteWord(source[i]);
        if !ok {
          FoundLater(region.run, region.run, n, |was| - 1, source[i], readVersion, false);
          return;
        }
        AnsweredMore(writeSet, source, i, target, seen, seen + Observed(source[..i], target), v);
        target := target + [v];
        i := i + 1;
      }
      assert source[..i] == source;
      ok := true;
    }

    /** One turn of the loop: check the lock word, then copy from the redo log or from memory. */
    method ReadWriteWord(l: Loc) returns (ok: bool, v: Val)
      requires In(Idle) && !isRo
      modifies this`readSet, this`trace, region
      ensures old(region.run) <= region.run
      ensures In(if ok then Idle else Finished(false))
      ensures ok ==> trace == old(trace) + [Read(l, v, None)] && readSet == old(readSet) + [l]
      ensures ok && l in Locs(writeSet) ==> v == Overlay(writeSet, l, 0)
      ensures Found(region.run, |old(region.run)| - 1, l, readVersion, ok)
    {
      region.Move(Invoke(tid, ReadWord(l)), Moved(RwCheck(l)));
      region.Interfere(tid);
      ghost var before, k := region.run, |region.run| - 1;
      var cell := region.shared.cells[l];
      if cell.locked || cell.version > readVersion {
        region.Move(Tau(tid), Moved(Finished(false)));
        assert !FreeAt(region.run, k, l, readVersion);
        return false, 0;
      }
      readSet := readSet + [l];
      if l in Locs(writeSet) {
        v := ScanNewestFirst(l);
        trace := trace + [Read(l, v, None)];
        region.Move(Tau(tid), Moved(Idle));
      } else {
        region.Move(Tau(tid), Moved(RwCopy(l)));
        v := CopyWord(l);
      }
      assert region.run[k] == before[k] && FreeAt(region.run, k, l, readVersion);
      ok := true;
    }

    method CopyWord(l: Loc) returns (v: Val)
      requires In(RwCopy(l))
      modifies this`trace, region
      ensures old(region.run) <= region.run && In(Idle)
      ensures trace == old(trace) + [Read(l, v, None)]
    {
      region.Interfere(tid);
      v := region.shared.cells[l].val;
      trace := trace + [Read(l, v, None)];
      region.Move(Tau(tid), Moved(Idle));
    }

    /** The scan of lines 166-172. */
    method ScanNewestFirst(l: Loc) returns (v: Val)
      requires l in Locs(writeSet)
      ensures v == Overlay(writeSet, l, 0)
    {
      var i := |writeSet|;
      assert writeSet[..i] == writeSet;
      while i > 0
        invariant 0 <= i <= |writeSet| && l in Locs(writeSet[..i])
        invariant Overlay(writeSet[..i], l, 0) == Overlay(writeSet, l, 0)
      {
        i := i - 1;
        assert writeSet[..i + 1][..i] == writeSet[..i];
        if writeSet[i].loc == l {
          return writeSet[i].val;
        }
      }
      v := 0;
    }
  
    /** Transaction::read_only_read (lines 131-150), one word per turn of its loop. */
    method ReadOnlyRead(source: seq<Loc>) returns (ok: bool, target: seq<Val>)
      requires In(Idle) && isRo
      modifies this`readVersion, this`readSet, this`trace, region
      ensures old(region.run) <= region.run
      ensures In(if ok then Idle else Finished(false))
      ensures ok ==> |target| == |source| && old(trace) <= trace
      ensures ok ==> Served(trace[|old(trace)|..], source, target)
      ensures !ok ==> exists i: nat :: i < |source| && Denied(region.run, |old(region.run)| - 1, source[i], readSet, readVersion)
    {
      target := [];
      var i := 0;
      while i < |source|
        invariant 0 <= i <= |source| && |target| == i && In(Idle) && old(region.run) <= region.run
        invariant old(trace) <= trace && Served(trace[|old(trace)|..], source[..i], target)
      {
        ghost var before, n := trace, |region.run| - 1;
        var v: Val;
        ok, v := ReadOnlyWord(source[i]);
        if !ok {
          DeniedLater(region.run, region.run, n, |old(region.run)| - 1, source[i], readSet, readVersion);
          return;
        }
        ServedMore(before[|old(trace)|..], source[..i], target, trace[|before|], source[i], v);
        assert trace[|old(trace)|..] == before[|old(trace)|..] + [trace[|before|]];
        assert source[..i + 1] == source[..i] + [source[i]];
        target := target + [v];
        i := i + 1;
      }
      assert source[..i] == source;
      ok := true;
    }

    method ReadOnlyWord(l: Loc) returns (ok: bool, v: Val)
      requires In(Idle) && isRo
      modifies this`readVersion, this`readSet, this`trace, region
      ensures old(region.run) <= region.run
      ensures In(if ok then Idle else Finished(false))
      ensures ok ==> |trace| == |old(trace)| + 1 && old(trace) <= trace
      ensures ok ==> trace[|old(trace)|].Read? && trace[|old(trace)|].loc == l && trace[|old(trace)|].val == v
      ensures ok ==> readSet == old(readSet) + [l] && CopiedThenFree(region.run, |old(region.run)| - 1, l, v, readVersion)
      ensures !ok ==> Denied(region.run, |old(region.run)| - 1, l, readSet, readVersion)
    {
      var under: Option<Tid>;
      ghost var n, rs: seq<(nat, nat)> := |region.run| - 1, [];
      ghost var copied;
      v, under, copied := FirstCopy(l);
      var retries := 0;
      while true
        invariant 0 <= retries < RO_RETRIES && trace == old(trace) && readSet == old(readSet) && old(region.run) <= region.run
        invariant In(RoCheck(l, v, under, retries))
        invariant |rs| == retries && Tried(region.run, n, l, rs, copied, v, readVersion)
        decreases RO_RETRIES - retries
      {
        var over;
        ok, over, v, under, rs, copied := TryOnce(l, v, under, retries, n, rs, copied);
        if ok || over {
          return;
        }
        retries := retries + 1;
      }
    }

    /** One turn of the loop of lines 139-146; `over` ends the transaction. */
    method TryOnce(l: Loc, v: Val, under: Option<Tid>, retries: nat, ghost n: nat, ghost rs: seq<(nat, nat)>, ghost copied: nat)
        returns (passed: bool, over: bool, v': Val, under': Option<Tid>, ghost rs': seq<(nat, nat)>, ghost copied': nat)
      requires In(RoCheck(l, v, under, retries)) && isRo && retries < RO_RETRIES && n < |region.run|
      requires |rs| == retries && Tried(region.run, n, l, rs, copied, v, readVersion)
      modifies this`readVersion, this`readSet, this`trace, region
      ensures old(region.run) <= region.run
      ensures In(if passed then Idle else if over then Finished(false) else RoCheck(l, v', under', retries + 1))
      ensures trace == if passed then old(trace) + [Read(l, v, under)] else old(trace)
      ensures readSet == if passed then old(readSet) + [l] else old(readSet)
      ensures passed ==> v' == v && CopiedThenFree(region.run, n, l, v, readVersion)
      ensures !passed && over ==> Denied(region.run, n, l, readSet, readVersion)
      ensures !passed && !over ==> retries + 1 < RO_RETRIES && |rs'| == retries + 1
                                   && Tried(region.run, n, l, rs', copied', v', readVersion)
    {
      ghost var before, rv := region.run, readVersion;
      ghost var checked;
      var extended;
      v', under', rs', copied' := v, under, rs, copied;
      passed, extended, checked := CheckOrExtend(l, v, under, retries);
      over := !extended;
      if passed {
        assert region.run[copied] == before[copied];
      } else if over {
        BlockedLater(region.run, region.run, |before| - 1, n, readSet, readVersion);
      } else {
        OneMoreRefusal(before, region.run, n, l, rs, copied, v, rv, checked);
        rs' := rs + [(checked, rv)];
        over, v', under', copied' := CopyAgain(l, retries, n, rs', checked);
      }
    }

    /** Lines 143-145: copy again, or give up. */
    method CopyAgain(l: Loc, retries: nat, ghost n: nat, ghost rs: seq<(nat, nat)>, ghost checked: nat)
        returns (over: bool, v: Val, under: Option<Tid>, ghost copied: nat)
      requires In(RoRecopy(l, retries)) && isRo && retries < RO_RETRIES && |rs| == retries + 1
      requires Refused(region.run, n, l, rs) && n <= checked < |region.run| && forall m :: 0 <= m < |rs| ==> rs[m].0 <= checked
      requires forall k: nat :: k <= checked ==> region.run[k].clock <= readVersion
      requires checked + 1 < |region.run|
      modifies region
      ensures old(region.run) <= region.run
      ensures In(if over then Finished(false) else RoCheck(l, v, under, retries + 1))
      ensures over ==> Denied(region.run, n, l, readSet, readVersion)
      ensures !over ==> retries + 1 < RO_RETRIES && Tried(region.run, n, l, rs, copied, v, readVersion)
    {
      ghost var before := region.run;
      over := retries + 1 == RO_RETRIES;
      v, under, copied := 0, None, 0;
      if over {
        GiveUp(l);
        RefusedLater(before, region.run, n, n, l, rs);
      } else {
        v, under, copied := CopyReadOnly(l, retries + 1);
        TriedAgain(before, region.run, n, l, rs, checked, copied, v, readVersion);
      }
    }

    method FirstCopy(l: Loc) returns (v: Val, under: Option<Tid>, ghost copied: nat)
      requires In(Idle) && isRo
      modifies region
      ensures old(region.run) <= region.run && In(RoCheck(l, v, under, 0))
      ensures |old(region.run)| <= copied < |region.run| && region.run[copied].cells[l].val == v
    {
      region.Move(Invoke(tid, ReadWord(l)), Moved(RoCopy(l)));
      v, under, copied := CopyReadOnly(l, 0);
    }

    /** Lines 139-142: the guard of the loop, and when it refuses, the extension. */
    method CheckOrExtend(l: Loc, v: Val, under: Option<Tid>, retries: nat)
        returns (passed: bool, extended: bool, ghost checked: nat)
      requires In(RoCheck(l, v, under, retries)) && isRo
      modifies this`readVersion, this`readSet, this`trace, region
      ensures old(region.run) <= region.run
      ensures In(if passed then Idle else if extended then RoRecopy(l, retries) else Finished(false))
      ensures trace == if passed then old(trace) + [Read(l, v, under)] else old(trace)
      ensures readSet == if passed then old(readSet) + [l] else old(readSet)
      ensures |old(region.run)| <= checked + 1 < |region.run| && (passed <==> FreeAt(region.run, checked, l, old(readVersion)))
      ensures !extended ==> readVersion == old(readVersion)
      ensures passed ==> !extended
      ensures extended ==> forall k: nat :: k <= checked ==> region.run[k].clock <= readVersion
      ensures !passed && !extended ==> OneBlocked(region.run, |old(region.run)| - 1, readSet, readVersion)
    {
      passed, checked := CheckReadOnly(l, v, under, retries);
      extended := false;
      if !passed {
        ghost var before := region.run;
        extended := ExtendReadVersion(l, retries);
        if extended {
          forall k: nat | k <= checked ensures region.run[k].clock <= readVersion {
            ClockGrows(before, k, |before| - 1);
          }
        } else {
          BlockedLater(region.run, region.run, |before| - 1, |old(region.run)| - 1, readSet, readVersion);
        }
      }
    }

    /** Line 145: too many retries. */
    method GiveUp(l: Loc)
      requires In(RoRecopy(l, RO_RETRIES - 1))
      modifies region
      ensures old(region.run) <= region.run && In(Finished(false))
    {
      region.Move(Tau(tid), Moved(Finished(false)));
    }

    /** The copies of lines 136 and 143; which writer held the word is history only. */
    method CopyReadOnly(l: Loc, retries: nat) returns (v: Val, under: Option<Tid>, ghost copied: nat)
      requires In(if retries == 0 then RoCopy(l) else RoRecopy(l, retries - 1)) && retries < RO_RETRIES
      modifies region
      ensures old(region.run) <= region.run && In(RoCheck(l, v, under, retries))
      ensures |old(region.run)| <= copied + 1 && copied < |region.run| && region.run[copied].cells[l].val == v
    {
      region.Interfere(tid);
      copied := |region.run| - 1;
      v := region.shared.cells[l].val;
      under := OldWriter(region.shared, l, readVersion);
      region.Move(Tau(tid), Moved(RoCheck(l, v, under, retries)));
    }

    /** The loop guard of line 139. */
    method CheckReadOnly(l: Loc, v: Val, under: Option<Tid>, retries: nat) returns (passed: bool, ghost checked: nat)
      requires In(RoCheck(l, v, under, retries))
      modifies this`readSet, this`trace, region
      ensures old(region.run) <= region.run
      ensures In(if passed then Idle else RoClock(l, retries))
      ensures trace == if passed then old(trace) + [Read(l, v, under)] else old(trace)
      ensures readSet == if passed then old(readSet) + [l] else old(readSet)
      ensures |old(region.run)| <= checked + 1 < |region.run| && (passed <==> FreeAt(region.run, checked, l, readVersion))
    {
      region.Interfere(tid);
      checked := |region.run| - 1;
      var cell := region.shared.cells[l];
      passed := !cell.locked && cell.version <= readVersion;
      if passed {
        readSet := readSet + [l];
        trace := trace + [Read(l, v, under)];
        region.Move(Tau(tid), Moved(Idle));
      } else {
        region.Move(Tau(tid), Moved(RoClock(l, retries)));
      }
    }

    /** Lines 140-142: load the clock, recheck every earlier read, then adopt the loaded time. */
    method ExtendReadVersion(l: Loc, retries: nat) returns (ok: bool)
      requires In(RoClock(l, retries)) && isRo
      modifies this`readVersion, region
      ensures old(region.run) <= region.run
      ensures In(if ok then RoRecopy(l, retries) else Finished(false))
      ensures ok ==> readVersion >= old(region.shared.clock)
                     && exists k: nat :: |old(region.run)| <= k + 1 < |region.run| && readVersion == region.run[k].clock
      ensures !ok ==> readVersion == old(readVersion) && OneBlocked(region.run, |old(region.run)| - 1, readSet, readVersion)
    {
      ghost var n, loaded := |region.run| - 1, 0;
      var now;
      now, loaded := LoadClock(l, retries);
      ghost var before := region.run;
      ok := RecheckReads(l, retries, now);
      if ok {
        readVersion := now;
        region.Move(Tau(tid), Moved(RoRecopy(l, retries)));
        assert region.run[loaded] == before[loaded];
      } else {
        BlockedLater(region.run, region.run, |before| - 1, n, readSet, readVersion);
      }
    }

    /** Line 140. */
    method LoadClock(l: Loc, retries: nat) returns (now: nat, ghost loaded: nat)
      requires In(RoClock(l, retries)) && isRo
      modifies region
      ensures old(region.run) <= region.run && In(RoValidate(l, retries, now, 0))
      ensures |old(region.run)| <= loaded + 1 < |region.run| && now == region.run[loaded].clock >= old(region.shared.clock)
    {
      region.Interfere(tid);
      loaded := |region.run| - 1;
      now := region.shared.clock;
      ClockGrows(region.run, |old(region.run)| - 1, loaded);
      region.Move(Tau(tid), Moved(RoValidate(l, retries, now, 0)));
    }

    /** Line 141: recheck every earlier read. */
    method RecheckReads(l: Loc, retries: nat, now: nat) returns (ok: bool)
      requires In(RoValidate(l, retries, now, 0)) && isRo
      modifies region
      ensures old(region.run) <= region.run
      ensures In(if ok then RoValidate(l, retries, now, |readSet|) else Finished(false))
      ensures !ok ==> OneBlocked(region.run, |old(region.run)| - 1, readSet, readVersion)
    {
      var i: nat := 0;
      while i < |readSet|
        invariant 0 <= i <= |readSet| && In(RoValidate(l, retries, now, i)) && old(region.run) <= region.run
      {
        region.Interfere(tid);
        ghost var k := |region.run| - 1;
        var cell := region.shared.cells[readSet[i]];
        if cell.version > readVersion || cell.locked {
          region.Move(Tau(tid), Moved(Finished(false)));
          Blocks(region.run, |old(region.run)| - 1, readSet, readVersion, i, k);
          return false;
        }
        i := i + 1;
        region.Move(Tau(tid), Moved(RoValidate(l, retries, now, i)));
      }
      ok := true;
    }

    /** Transaction::end (lines 65-71). */
    method EndTx() returns (ok: bool)
      requires In(Idle)
      modifies this`writeVersion, this`lockedSet, region
      ensures old(region.run) <= region.run && In(Finished(ok))
      ensures lockedSet == {} && forall l :: region.shared.cells[l].owner != Some(tid)
      ensures ok && !isRo ==> writeVersion > 0 && Legal(trace, SerialMem(region.shared.log, writeVersion - 1))
      ensures isRo ==> ok
      ensures !ok ==> LockLost(region.run, |old(region.run)| - 1, writeSet, tid)
                      || ReadLost(region.run, |old(region.run)| - 1, readSet, readVersion, tid)
      ensures ok && isRo && Faithful(region.shared, Fields(Finished(true))) ==> Legal(trace, SerialMem(region.shared.log, readVersion))
    {
      if isRo {
        region.Move(Invoke(tid, End), Moved(Finished(true)));
        ok := true;
      } else {
        region.Move(Invoke(tid, End), Moved(Locking(0)));
        ok := EndReadWrite();
        if !ok { LostEarlier(region.run, |old(region.run)|, |old(region.run)| - 1, writeSet, readSet, readVersion, tid); }
      }
      HasEnded(ok);
    }

    /** What the end of the transaction means for its client. */
    lemma HasEnded(ok: bool)
      requires In(Finished(ok))
      ensures lockedSet == {} && forall l :: region.shared.cells[l].owner != Some(tid)
      ensures ok && !isRo ==> writeVersion > 0 && Legal(trace, SerialMem(region.shared.log, writeVersion - 1))
      ensures ok && isRo && Faithful(region.shared, Fields(Finished(true))) ==> Legal(trace, SerialMem(region.shared.log, readVersion))
    {
      var i := |region.run| - 1;
      RunInv(region.run, i);
      assert TxInv(region.shared, tid);
      if ok && !isRo { CommitsAreSerial(region.run, i, tid); }
      if ok && isRo && Faithful(region.shared, Fields(Finished(true))) { FaithfulSnapshot(region.run, i, tid); }
    }

    /** Transaction::end_wr (lines 186-201). */
    method EndReadWrite() returns (ok: bool)
      requires In(Locking(0)) && !isRo
      modifies this`writeVersion, this`lockedSet, region
      ensures old(region.run) <= region.run && In(Finished(ok))
      ensures !ok ==> LockLost(region.run, |old(region.run)| - 1, writeSet, tid)
                      || ReadLost(region.run, |old(region.run)| - 1, readSet, readVersion, tid)
    {
      ok := LockWriteSet();
      if !ok {
        return false;
      }
      var skipped := IncrementAndFetchClock();
      if !skipped {
        ghost var n := |region.run| - 1;
        ok := ValidateReadSet();
        if !ok {
          ghost var before := region.run;
          UnlockWriteSet(false);
          ReadLostLater(before, region.run, n, |old(region.run)| - 1, readSet, readVersion, tid);
          return false;
        }
      }
      WriteWriteSetAndUnlock();
      ok := true;
    }

    /** Transaction::lock_write_set (lines 73-87) with VersionedLock::try_lock. */
    method LockWriteSet() returns (ok: bool)
      requires In(Locking(0)) && !isRo
      modifies this`lockedSet, region
      ensures old(region.run) <= region.run
      ensures In(if ok then Tick else Finished(false))
      ensures !ok ==> LockLost(region.run, |old(region.run)| - 1, writeSet, tid)
    {
      var i := 0;
      while i < |writeSet|
        invariant 0 <= i <= |writeSet| && In(Locking(i)) && old(region.run) <= region.run
      {
        if writeSet[i].loc in lockedSet {
          region.Move(Tau(tid), Moved(Locking(i + 1)));
        } else {
          ghost var n := |region.run| - 1;
          var won := TryLock(i);
          if !won {
            ghost var before := region.run;
            UnlockWriteSet(false);
            LockLostLater(before, region.run, n, |old(region.run)| - 1, writeSet, tid);
            return false;
          }
        }
        i := i + 1;
      }
      region.Move(Tau(tid), Moved(Tick));
      ok := true;
    }

    /** VersionedLock::try_lock (358982/versioned_lock.cpp lines 13-18): load, then compare-and-swap. */
    method TryLock(i: nat) returns (won: bool)
      requires i < |writeSet| && In(Locking(i)) && !isRo && writeSet[i].loc !in lockedSet
      modifies this`lockedSet, region
      ensures old(region.run) <= region.run
      ensures In(if won then Locking(i + 1) else Unlocking(0, false))
      ensures !won ==> LockLost(region.run, |old(region.run)| - 1, writeSet, tid)
    {
      region.Interfere(tid);
      ghost var loaded, swapped := |region.run| - 1, 0;
      var seen := region.shared.cells[writeSet[i].loc].version;
      region.Move(Tau(tid), Moved(TryCas(i, seen)));
      won, swapped := CompareAndSwap(i, seen);
      if !won { assert Taken(region.run, loaded, swapped, writeSet[i].loc, tid); }
    }

    method CompareAndSwap(i: nat, seen: nat) returns (won: bool, ghost swapped: nat)
      requires i < |writeSet| && In(TryCas(i, seen))
      modifies this`lockedSet, region
      ensures old(region.run) <= region.run
      ensures In(if won then Locking(i + 1) else Unlocking(0, false))
      ensures |old(region.run)| <= swapped + 1 < |region.run|
      ensures var c := region.run[swapped].cells[writeSet[i].loc];
              won <==> c.version == seen && c.owner in {None, Some(tid)}
    {
      region.Interfere(tid);
      swapped := |region.run| - 1;
      RunInv(region.run, swapped);
      assert TxInv(region.shared, tid) && CellInv(region.shared, writeSet[i].loc);
      var l := writeSet[i].loc;
      var c := region.shared.cells[l];
      won := c.version == seen && !c.locked;
      if won {
        lockedSet := lockedSet + {l};
        region.Move(Tau(tid), SetCell(Moved(Locking(i + 1)), l, c.(locked := true, owner := Some(tid))));
      } else {
        region.Move(Tau(tid), Moved(Unlocking(0, false)));
      }
    }

    /** increment_and_fetch_global_clock (lines 89-91) and the shortcut of validation (lines 94-96). */
    method IncrementAndFetchClock() returns (skipped: bool)
      requires In(Tick)
      modifies this`writeVersion, region
      ensures old(region.run) <= region.run
      ensures In(if skipped then Publishing(0) else Validating(0)) && writeVersion > 0
      ensures skipped <==> writeVersion == readVersion + 1
    {
      region.Interfere(tid);
      writeVersion := region.shared.clock + 1;
      skipped := writeVersion == readVersion + 1;
      if skipped {
        region.Move(Tau(tid), Decided(Moved(Publishing(0)).(clock := region.shared.clock + 1)));
      } else {
        region.Move(Tau(tid), Moved(Validating(0)).(clock := region.shared.clock + 1));
      }
    }

    /** `s` with this transaction's commit in the history. */
    function Decided(s: State): State
      reads this
      requires writeVersion > 0
    {
      s.(log := s.log[writeVersion := Commit(tid, writeSet, trace)])
    }

    /** Transaction::validate_read_set (lines 98-109). */
    method ValidateReadSet() returns (ok: bool)
      requires In(Validating(0)) && writeVersion > 0
      modifies region
      ensures old(region.run) <= region.run
      ensures In(if ok then Publishing(0) else Unlocking(0, false))
      ensures !ok ==> ReadLost(region.run, |old(region.run)| - 1, readSet, readVersion, tid)
    {
      var i := 0;
      while i < |readSet|
        invariant 0 <= i <= |readSet| && In(Validating(i)) && old(region.run) <= region.run
      {
        region.Interfere(tid);
        ghost var k := |region.run| - 1;
        var c := region.shared.cells[readSet[i]];
        if c.version > readVersion || (readSet[i] !in lockedSet && c.locked) {
          HeldByAnother(readSet[i]);
          region.Move(Tau(tid), Moved(Unlocking(0, false)));
          assert Overtaken(region.run, k, readSet[i], readVersion, tid);
          return false;
        }
        i := i + 1;
        region.Move(Tau(tid), Moved(Validating(i)));
      }
      region.Move(Tau(tid), Decided(Moved(Publishing(0))));
      ok := true;
    }

    /** A locked word that is not in this transaction's locked set has another owner. */
    lemma HeldByAnother(l: Loc)
      requires region.Valid() && tid < |region.shared.txs| && region.shared.txs[tid].lockedSet == lockedSet
      ensures region.shared.cells[l].locked && l !in lockedSet ==> region.shared.cells[l].owner !in {None, Some(tid)}
    {
      RunInv(region.run, |region.run| - 1);
      assert TxInv(region.shared, tid) && CellInv(region.shared, l);
    }

    /** Transaction::write_write_set_and_unlock (lines 122-129) with VersionedLock::set_version. */
    method WriteWriteSetAndUnlock()
      requires In(Publishing(0)) && writeVersion > 0
      modifies this`lockedSet, region
      ensures old(region.run) <= region.run && In(Finished(true))
    {
      var i := 0;
      while i < |writeSet|
        invariant 0 <= i <= |writeSet| && In(Publishing(i)) && old(region.run) <= region.run
      {
        region.Interfere(tid);
        var l := writeSet[i].loc;
        region.Move(Tau(tid), SetCell(Moved(VersionLoad(i)), l, region.shared.cells[l].(val := writeSet[i].val)));
        SetVersion(i);
        i := i + 1;
      }
      region.Move(Tau(tid), Moved(Unlocking(0, true)));
      UnlockWriteSet(true);
    }

    method SetVersion(i: nat)
      requires i < |writeSet| && In(VersionLoad(i)) && writeVersion > 0
      modifies region
      ensures old(region.run) <= region.run && In(Publishing(i + 1))
    {
      region.Interfere(tid);
      var held := region.shared.cells[writeSet[i].loc].locked;
      region.Move(Tau(tid), Moved(VersionStore(i, held)));
      StoreVersion(i, held);
    }

    method StoreVersion(i: nat, held: bool)
      requires i < |writeSet| && In(VersionStore(i, held)) && writeVersion > 0
      modifies region
      ensures old(region.run) <= region.run && In(Publishing(i + 1))
    {
      region.Interfere(tid);
      var l := writeSet[i].loc;
      region.Move(Tau(tid), SetCell(Moved(Publishing(i + 1)), l,
                                    region.shared.cells[l].(version := writeVersion, locked := held)));
    }

    /** Transaction::unlock_write_set (lines 112-120) with VersionedLock::unlock. */
    method UnlockWriteSet(committed: bool)
      requires In(Unlocking(0, committed))
      modifies this`lockedSet, region
      ensures old(region.run) <= region.run && In(Finished(committed))
    {
      var i := 0;
      while i < |writeSet|
        invariant 0 <= i <= |writeSet| && In(Unlocking(i, committed)) && old(region.run) <= region.run
      {
        if writeSet[i].loc in lockedSet {
          Unlock(i, committed);
        } else {
          region.Move(Tau(tid), Moved(Unlocking(i + 1, committed)));
        }
        i := i + 1;
      }
      region.Move(Tau(tid), Moved(Finished(committed)));
    }

    method Unlock(i: nat, committed: bool)
      requires i < |writeSet| && In(Unlocking(i, committed)) && writeSet[i].loc in lockedSet
      modifies this`lockedSet, region
      ensures old(region.run) <= region.run && In(Unlocking(i + 1, committed))
    {
      region.Interfere(tid);
      var seen := region.shared.cells[writeSet[i].loc].version;
      region.Move(Tau(tid), Moved(UnlockStore(i, seen, committed)));
      StoreUnlocked(i, seen, committed);
    }

    method StoreUnlocked(i: nat, seen: nat, committed: bool)
      requires i < |writeSet| && In(UnlockStore(i, seen, committed))
      modifies this`lockedSet, region
      ensures old(region.run) <= region.run && In(Unlocking(i + 1, committed))
    {
      region.Interfere(tid);
      var l := writeSet[i].loc;
      lockedSet := lockedSet - {l};
      region.Move(Tau(tid), SetCell(Moved(Unlocking(i + 1, committed)), l,
                                    region.shared.cells[l].(version := seen, locked := false, owner := None)));
    }
  }

  /** The trace entries of reads that copied nothing from under an old writer. */
  function Observed(source: seq<Loc>, target: seq<Val>): (ops: seq<Op>)
    requires |source| == |target|
    ensures |ops| == |source|
    ensures forall k :: 0 <= k < |ops| ==> ops[k] == Read(source[k], target[k], None)
  {
    if source == [] then []
    else
      var n := |source| - 1;
      Observed(source[..n], target[..n]) + [Read(source[n], target[n], None)]
  }

  /** The operations are reads of the given words that returned the given values. */
  predicate Served(ops: seq<Op>, source: seq<Loc>, target: seq<Val>) {
    && |ops| == |source| == |target|
    && forall k :: 0 <= k < |ops| ==> ops[k].Read? && ops[k].loc == source[k] && ops[k].val == target[k]
  }

  lemma ServedMore(ops: seq<Op>, source: seq<Loc>, target: seq<Val>, o: Op, l: Loc, v: Val)
    requires Served(ops, source, target) && o.Read? && o.loc == l && o.val == v
    ensures Served(ops + [o], source + [l], target + [v])
  {
  }

  /** Words with a pending write show the newest one. */
  predicate OwnWritesWin(ws: seq<Write>, source: seq<Loc>, target: seq<Val>)
    requires |source| == |target|
  {
    forall k :: 0 <= k < |source| && source[k] in Locs(ws) ==> target[k] == Overlay(ws, source[k], 0)
  }

  /** The first `i` words have been answered, and the trace says so. */
  predicate Answered(ws: seq<Write>, source: seq<Loc>, i: int, target: seq<Val>, seen: seq<Op>, trace: seq<Op>) {
    && 0 <= i <= |source| && |target| == i
    && trace == seen + Observed(source[..i], target)
    && OwnWritesWin(ws, source[..i], target)
  }

  lemma AnsweredMore(ws: seq<Write>, source: seq<Loc>, i: nat, target: seq<Val>, seen: seq<Op>, trace: seq<Op>, v: Val)
    requires Answered(ws, source, i, target, seen, trace) && i < |source|
    requires source[i] in Locs(ws) ==> v == Overlay(ws, source[i], 0)
    ensures Answered(ws, source, i + 1, target + [v], seen, trace + [Read(source[i], v, None)])
  {
    ObservedMore(source[..i], target, source[i], v);
    assert source[..i + 1] == source[..i] + [source[i]];
  }

  lemma ObservedMore(source: seq<Loc>, target: seq<Val>, l: Loc, v: Val)
    requires |source| == |target|
    ensures Observed(source + [l], target + [v]) == Observed(source, target) + [Read(l, v, None)]
  {
    assert (source + [l])[..|source|] == source && (target + [v])[..|target|] == target;
  }
}
