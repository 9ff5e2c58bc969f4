/** Runs in which operations succeed that must: a commit that validates by a full scan words it holds
    itself, a read-only read that extends, and a read of a word with a pending write. */
module StmRuns {
  import opened Options
  import opened SharedMemory
  import opened Stm
  import opened StmTraces
  import opened StmScripts

  /** A transaction that another one has overtaken: transaction 0 has begun and read `l`, transaction 1 has
      written 7 to `m` since. */
  ghost predicate Overtaken(s: State, l: Loc, m: Loc, ro: bool) {
    && s.clock == 1 && |s.txs| == 2
    && s.txs[0] == Tx(ro, 0, -1, [l], [], {}, Idle, [Read(l, 0, None)])
    && s.cells[m] == Cell(7, 1, false, None)
    && s.cells[l] == Cell(0, 0, false, None)
  }

  lemma Overtake(l: Loc, m: Loc, ro: bool) returns (r: seq<State>)
    requires l != m
    ensures IsRun(r) && Overtaken(Last(r), l, m, ro)
  {
    r := [Initial()];
    r := Go(r, Begin(ro));
    if ro { r := ReadOnlyFree(r, 0, l); } else { r := ReadFree(r, 0, l); }
    assert [] + [Read(l, 0, None)] == [Read(l, 0, None)] && [] + [l] == [l];
    assert Last(r).txs == [Tx(ro, 0, -1, [l], [], {}, Idle, [Read(l, 0, None)])];
    r := WriteAside(r, l, m);
  }

  lemma WriteAside(run: seq<State>, l: Loc, m: Loc) returns (r: seq<State>)
    requires l != m && IsRun(run) && |Last(run).txs| == 1 && Last(run).clock == 0
    requires Last(run).cells[l] == Last(run).cells[m] == Cell(0, 0, false, None)
    ensures IsRun(r) && run <= r && Last(r).clock == 1 && |Last(r).txs| == 2 && Last(r).txs[0] == Last(run).txs[0]
    ensures Last(r).cells[m] == Cell(7, 1, false, None) && Last(r).cells[l] == Last(run).cells[l]
  {
    r := Go(run, Begin(false));
    r := WriteOne(r, 1, m, 7);
    assert [] + [Write(m, 7)] == [Write(m, 7)];
    assert Last(r).txs[1].writeSet == [Write(m, 7)] && Spares([Write(m, 7)], l);
    r := CommitAlone(r, 1);
    assert Last(r).cells[Last(r).txs[1].writeSet[0].loc] == Cell(7, 1, false, None);
  }

  // ---- A full scan ----

  /** Transaction 0 has read `l` and writes 5 to it. */
  ghost function Modifier(l: Loc, wv: int, locks: set<Loc>, pc: Pc): Tx {
    Tx(false, 0, wv, [l], [Write(l, 5)], locks, pc, [Read(l, 0, None), Store(l, 5)])
  }

  /** A transaction that reads and writes `l` is overtaken by a commit on another word.  Its write version is
      not the next, so it scans; it finds `l` locked by itself, and commits. */
  lemma ScannedCommitRun(l: Loc, m: Loc) returns (r: seq<State>, k: nat)
    requires l != m
    ensures IsRun(r) && k < |r| && |r[k].txs| == 2
    ensures r[k].txs[0] == Modifier(l, 2, {l}, Validating(0)) && r[k].cells[l].locked && r[k].cells[l].owner == Some(0)
    ensures |Last(r).txs| == 2 && Last(r).txs[0] == Modifier(l, 2, {}, Finished(true))
    ensures Last(r).cells[l] == Cell(5, 2, false, None)
  {
    r := Overtake(l, m, false);
    r := LockModified(r, l);
    k := |r| - 1;
    var scanned := r;
    assert Locs([Write(l, 5)]) == {l} by { LocsAppend([], Write(l, 5)); assert [] + [Write(l, 5)] == [Write(l, 5)]; }
    r := Go(r, Tau(0));
    assert Last(r).txs[0] == Modifier(l, 2, {l}, Validating(1));
    r := Go(r, Tau(0));
    assert Last(r).txs[0] == Modifier(l, 2, {l}, Publishing(0));
    r := Finish(r, 0);
    assert Last(r).cells[Modifier(l, 2, {}, Idle).writeSet[0].loc] == Cell(5, 2, false, None);
    assert r[k] == scanned[k];
  }

  lemma LockModified(run: seq<State>, l: Loc) returns (r: seq<State>)
    requires IsRun(run) && Last(run).clock == 1 && |Last(run).txs| == 2
    requires Last(run).txs[0] == Tx(false, 0, -1, [l], [], {}, Idle, [Read(l, 0, None)])
    requires Last(run).cells[l] == Cell(0, 0, false, None)
    ensures IsRun(r) && Last(r).clock == 2 && |Last(r).txs| == 2
    ensures Last(r).txs[0] == Modifier(l, 2, {l}, Validating(0)) && Last(r).cells[l] == Cell(0, 0, true, Some(0))
  {
    r := WriteOne(run, 0, l, 5);
    assert [] + [Write(l, 5)] == [Write(l, 5)] && [Read(l, 0, None)] + [Store(l, 5)] == [Read(l, 0, None), Store(l, 5)];
    assert Last(r).txs[0] == Modifier(l, -1, {}, Idle);
    r := TakeLock(r, l);
  }

  lemma TakeLock(run: seq<State>, l: Loc) returns (r: seq<State>)
    requires IsRun(run) && Last(run).clock == 1 && |Last(run).txs| == 2
    requires Last(run).txs[0] == Modifier(l, -1, {}, Idle) && Last(run).cells[l] == Cell(0, 0, false, None)
    ensures IsRun(r) && Last(r).clock == 2 && |Last(r).txs| == 2
    ensures Last(r).txs[0] == Modifier(l, 2, {l}, Validating(0)) && Last(r).cells[l] == Cell(0, 0, true, Some(0))
  {
    r := Go(run, Invoke(0, End));
    r := Go(r, Tau(0));
    assert Last(r).txs[0] == Modifier(l, -1, {}, TryCas(0, 0));
    r := Go(r, Tau(0));
    assert {} + {l} == {l};
    assert Last(r).txs[0] == Modifier(l, -1, {l}, Locking(1));
    r := DrawVersion(r, l);
  }

  lemma DrawVersion(run: seq<State>, l: Loc) returns (r: seq<State>)
    requires IsRun(run) && Last(run).clock == 1 && |Last(run).txs| == 2
    requires Last(run).txs[0] == Modifier(l, -1, {l}, Locking(1)) && Last(run).cells[l] == Cell(0, 0, true, Some(0))
    ensures IsRun(r) && Last(r).clock == 2 && |Last(r).txs| == 2
    ensures Last(r).txs[0] == Modifier(l, 2, {l}, Validating(0)) && Last(r).cells[l] == Cell(0, 0, true, Some(0))
  {
    r := run;
    r := Go(r, Tau(0));
    assert Last(r).txs[0] == Modifier(l, -1, {l}, Tick);
    r := Go(r, Tau(0));
  }

  // ---- An extension ----

  ghost function Reader(l: Loc, rv: nat, pc: Pc): Tx {
    Tx(true, rv, -1, [l], [], {}, pc, [Read(l, 0, None)])
  }

  /** A read-only transaction that has read `l` then reads `m`, which was written since.  It extends its read
      version, copies again, returns the newer value, and commits. */
  lemma ExtensionRun(l: Loc, m: Loc) returns (r: seq<State>)
    requires l != m
    ensures IsRun(r) && |Last(r).txs| == 2
    ensures Last(r).txs[0] == Tx(true, 1, -1, [l, m], [], {}, Finished(true), [Read(l, 0, None), Read(m, 7, None)])
  {
    r := Overtake(l, m, true);
    r := Refuse(r, l, m);
    r := Go(r, Tau(0));
    assert Last(r).txs[0] == Reader(l, 0, RoValidate(m, 0, 1, 1));
    r := Go(r, Tau(0));
    assert Last(r).txs[0] == Reader(l, 1, RoRecopy(m, 0));
    r := Go(r, Tau(0));
    assert Last(r).txs[0] == Reader(l, 1, RoCheck(m, 7, None, 1));
    r := Go(r, Tau(0));
    assert [l] + [m] == [l, m] && [Read(l, 0, None)] + [Read(m, 7, None)] == [Read(l, 0, None), Read(m, 7, None)];
    r := Go(r, Invoke(0, End));
  }

  lemma Refuse(run: seq<State>, l: Loc, m: Loc) returns (r: seq<State>)
    requires IsRun(run) && Overtaken(Last(run), l, m, true)
    ensures IsRun(r) && |Last(r).txs| == 2 && Last(r).clock == 1 && Last(r).cells == Last(run).cells
    ensures Last(r).txs[0] == Reader(l, 0, RoValidate(m, 0, 1, 0))
  {
    r := Go(run, Invoke(0, ReadWord(m)));
    r := Go(r, Tau(0));
    assert Last(r).txs[0] == Reader(l, 0, RoCheck(m, 7, None, 0));
    r := Go(r, Tau(0));
    assert Last(r).txs[0] == Reader(l, 0, RoClock(m, 0));
    r := Go(r, Tau(0));
  }

  // ---- A pending write ----

  /** A transaction reads a word it has written before, gets what it wrote, and commits. */
  lemma OwnWriteRun(l: Loc) returns (r: seq<State>)
    ensures IsRun(r)
    ensures Last(r).txs == [Tx(false, 0, 1, [l], [Write(l, 5)], {}, Finished(true), [Store(l, 5), Read(l, 5, None)])]
    ensures Last(r).cells[l] == Cell(5, 1, false, None)
  {
    var ws := [Write(l, 5)];
    r := [Initial()];
    r := Go(r, Begin(false));
    r := WriteOne(r, 0, l, 5);
    assert [] + ws == ws && [] + [Store(l, 5)] == [Store(l, 5)];
    assert Last(r).txs == [Tx(false, 0, -1, [], ws, {}, Idle, [Store(l, 5)])];
    LocsAppend([], Write(l, 5));
    r := Go(r, Invoke(0, ReadWord(l)));
    r := Go(r, Tau(0));
    assert [] + [l] == [l] && [Store(l, 5)] + [Read(l, 5, None)] == [Store(l, 5), Read(l, 5, None)];
    assert Last(r).txs == [Tx(false, 0, -1, [l], ws, {}, Idle, [Store(l, 5), Read(l, 5, None)])];
    r := CommitAlone(r, 0);
    assert Last(r).cells[ws[0].loc] == Cell(5, 1, false, None);
  }
}
