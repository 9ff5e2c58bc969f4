/** Pieces of runs in which one transaction goes a long way undisturbed, to build witness runs from. */
module StmScripts {
  import opened Options
  import opened SharedMemory
  import opened Stm
  import opened StmTraces

  predicate DistinctLocs(ws: seq<Write>) {
    forall a, b :: 0 <= a < b < |ws| ==> ws[a].loc != ws[b].loc
  }

  /** The log does not write the word. */
  predicate Spares(ws: seq<Write>, l: Loc) {
    forall i :: 0 <= i < |ws| ==> ws[i].loc != l
  }

  lemma {:induction false} SparesIsNotIn(ws: seq<Write>, l: Loc)
    ensures Spares(ws, l) <==> l !in Locs(ws)
  {
    if ws != [] {
      var n := |ws| - 1;
      SparesIsNotIn(ws[..n], l);
      assert Spares(ws, l) <==> Spares(ws[..n], l) && ws[n].loc != l;
    }
  }

  lemma FreshWrite(ws: seq<Write>, i: nat)
    requires DistinctLocs(ws) && i < |ws|
    ensures ws[i].loc !in Locs(ws[..i]) && Locs(ws[..i + 1]) == Locs(ws[..i]) + {ws[i].loc} && ws[i].loc in Locs(ws)
  {
    SparesIsNotIn(ws[..i], ws[i].loc);
    LocsPrefix(ws, i);
  }

  // ---- Reads and writes ----

  ghost predicate Free(s: State, l: Loc, rv: nat) {
    !s.cells[l].locked && s.cells[l].owner == None && s.cells[l].version <= rv
  }

  /** A read of a read-write transaction that finds the word free and old. */
  lemma ReadFree(run: seq<State>, t: Tid, l: Loc) returns (r: seq<State>)
    requires IsRun(run) && t < |Last(run).txs| && Last(run).txs[t].pc.Idle? && !Last(run).txs[t].ro
    requires Free(Last(run), l, Last(run).txs[t].rv) && Spares(Last(run).txs[t].writeSet, l)
    ensures IsRun(r) && run <= r
    ensures var s, x := Last(run), Last(run).txs[t];
            Last(r) == Put(s, t, x.(readSet := x.readSet + [l], ops := x.ops + [Read(l, s.cells[l].val, None)]))
  {
    SparesIsNotIn(Last(run).txs[t].writeSet, l);
    r := Go(run, Invoke(t, ReadWord(l)));
    r := Go(r, Tau(t));
    r := Go(r, Tau(t));
  }

  /** A read that finds the word locked or too new. */
  lemma FailRead(run: seq<State>, t: Tid, l: Loc) returns (r: seq<State>)
    requires IsRun(run) && t < |Last(run).txs| && Last(run).txs[t].pc.Idle? && !Last(run).txs[t].ro
    requires Last(run).cells[l].version > Last(run).txs[t].rv
    ensures IsRun(r) && run <= r
    ensures Last(r) == Put(Last(run), t, Last(run).txs[t].(pc := Finished(false)))
  {
    r := Go(run, Invoke(t, ReadWord(l)));
    r := Go(r, Tau(t));
  }

  /** A read of a read-only transaction that finds the word free and old. */
  lemma ReadOnlyFree(run: seq<State>, t: Tid, l: Loc) returns (r: seq<State>)
    requires IsRun(run) && t < |Last(run).txs| && Last(run).txs[t].pc.Idle? && Last(run).txs[t].ro
    requires Free(Last(run), l, Last(run).txs[t].rv)
    ensures IsRun(r) && run <= r
    ensures var s, x := Last(run), Last(run).txs[t];
            Last(r) == Put(s, t, x.(readSet := x.readSet + [l], ops := x.ops + [Read(l, s.cells[l].val, None)]))
  {
    r := Go(run, Invoke(t, ReadWord(l)));
    r := Go(r, Tau(t));
    r := Go(r, Tau(t));
  }

  lemma WriteOne(run: seq<State>, t: Tid, l: Loc, v: Val) returns (r: seq<State>)
    requires IsRun(run) && t < |Last(run).txs| && Last(run).txs[t].pc.Idle? && !Last(run).txs[t].ro
    ensures IsRun(r) && run <= r
    ensures var s, x := Last(run), Last(run).txs[t];
            Last(r) == Put(s, t, x.(writeSet := x.writeSet + [Write(l, v)], ops := x.ops + [Store(l, v)]))
  {
    r := Go(run, Invoke(t, WriteWord(l, v)));
  }

  // ---- Commit ----

  /** Transaction `t` of `s`, in a commit nobody disturbs. */
  ghost predicate Ready(s: State, t: Tid) {
    && t < |s.txs| && !s.txs[t].ro && DistinctLocs(s.txs[t].writeSet)
    && s.txs[t].lockedSet == {} && s.txs[t].wv == -1 && s.txs[t].rv == s.clock
    && forall i :: 0 <= i < |s.txs[t].writeSet| ==> Free(s, s.txs[t].writeSet[i].loc, s.clock)
  }

  /** `s` after the locks of the first `i` writes have been taken. */
  ghost predicate LockedUpTo(s: State, s': State, t: Tid, i: nat)
    requires t < |s.txs| && i <= |s.txs[t].writeSet|
  {
    var x := s.txs[t];
    && s'.clock == s.clock && s'.nseg == s.nseg && s'.log == s.log
    && s'.txs == s.txs[t := x.(lockedSet := Locs(x.writeSet[..i]), pc := Locking(i))]
    && forall l :: s'.cells[l] == if l in Locs(x.writeSet[..i]) then s.cells[l].(locked := true, owner := Some(t)) else s.cells[l]
  }

  lemma {:induction false} LockUpTo(run: seq<State>, s: State, t: Tid, i: nat) returns (r: seq<State>)
    requires IsRun(run) && Ready(s, t) && i <= |s.txs[t].writeSet|
    requires Last(run) == Put(s, t, s.txs[t].(pc := Locking(0)))
    ensures IsRun(r) && run <= r && LockedUpTo(s, Last(r), t, i)
  {
    if i == 0 {
      r := run;
      assert s.txs[t].writeSet[..0] == [];
    } else {
      r := LockUpTo(run, s, t, i - 1);
      r := LockOne(r, s, t, i - 1);
    }
  }

  lemma LockOne(run: seq<State>, s: State, t: Tid, i: nat) returns (r: seq<State>)
    requires IsRun(run) && Ready(s, t) && i < |s.txs[t].writeSet| && LockedUpTo(s, Last(run), t, i)
    ensures IsRun(r) && run <= r && LockedUpTo(s, Last(r), t, i + 1)
  {
    var x := s.txs[t];
    FreshWrite(x.writeSet, i);
    assert Free(s, x.writeSet[i].loc, s.clock);
    r := Go(run, Tau(t));
    assert Last(r).txs[t] == x.(lockedSet := Locs(x.writeSet[..i]), pc := TryCas(i, s.cells[x.writeSet[i].loc].version));
    r := Go(r, Tau(t));
    assert Last(r).txs[t] == x.(lockedSet := Locs(x.writeSet[..i + 1]), pc := Locking(i + 1));
  }

  /** tm_end up to the decision: every word locked, the next version drawn, validation skipped. */
  lemma Draw(run: seq<State>, t: Tid) returns (r: seq<State>)
    requires IsRun(run) && Ready(Last(run), t) && Last(run).txs[t].pc.Idle?
    ensures IsRun(r) && run <= r && Drawn(Last(run), Last(r), t)
  {
    var s := Last(run);
    var n := |s.txs[t].writeSet|;
    r := Go(run, Invoke(t, End));
    r := LockUpTo(r, s, t, n);
    assert s.txs[t].writeSet[..n] == s.txs[t].writeSet;
    r := DecideNow(r, s, t);
  }

  /** `s` after transaction `t` has taken all its locks and decided its commit. */
  ghost predicate Drawn(s: State, s': State, t: Tid)
    requires t < |s.txs|
  {
    var x := s.txs[t];
    && s'.clock == s.clock + 1 && s'.nseg == s.nseg
    && s'.log == s.log[s.clock + 1 := Commit(t, x.writeSet, x.ops)]
    && s'.txs == s.txs[t := x.(lockedSet := Locs(x.writeSet), wv := s.clock + 1, pc := Publishing(0))]
    && forall l :: s'.cells[l] == if l in Locs(x.writeSet) then s.cells[l].(locked := true, owner := Some(t)) else s.cells[l]
  }

  lemma DecideNow(run: seq<State>, s: State, t: Tid) returns (r: seq<State>)
    requires IsRun(run) && Ready(s, t) && LockedUpTo(s, Last(run), t, |s.txs[t].writeSet|)
    requires s.txs[t].writeSet[..|s.txs[t].writeSet|] == s.txs[t].writeSet
    ensures IsRun(r) && run <= r && Drawn(s, Last(r), t)
  {
    var x := s.txs[t];
    r := Go(run, Tau(t));
    assert Last(r).txs == s.txs[t := x.(lockedSet := Locs(x.writeSet), pc := Tick)];
    r := Go(r, Tau(t));
    assert Last(r).txs == s.txs[t := x.(lockedSet := Locs(x.writeSet), wv := s.clock + 1, pc := Publishing(0))];
  }

  /** `t` is publishing, holds all the words it writes, and the rest of its commit is undisturbed. */
  ghost predicate Publishes(s: State, t: Tid) {
    && t < |s.txs| && DistinctLocs(s.txs[t].writeSet) && s.txs[t].wv > 0
    && s.txs[t].lockedSet == Locs(s.txs[t].writeSet)
    && s.txs[t].pc == Publishing(0)
    && forall l :: l in Locs(s.txs[t].writeSet) ==> s.cells[l].locked && s.cells[l].owner == Some(t)
  }

  ghost predicate PublishedUpTo(s: State, s': State, t: Tid, i: nat)
    requires t < |s.txs| && i <= |s.txs[t].writeSet| && s.txs[t].wv > 0
  {
    var x := s.txs[t];
    && s'.clock == s.clock && s'.nseg == s.nseg && s'.log == s.log
    && s'.txs == s.txs[t := x.(pc := Publishing(i))]
    && (forall j :: 0 <= j < i ==> s'.cells[x.writeSet[j].loc] == Cell(x.writeSet[j].val, x.wv, true, Some(t)))
    && forall l :: l !in Locs(x.writeSet[..i]) ==> s'.cells[l] == s.cells[l]
  }

  lemma {:induction false} PublishUpTo(run: seq<State>, s: State, t: Tid, i: nat) returns (r: seq<State>)
    requires IsRun(run) && Publishes(s, t) && i <= |s.txs[t].writeSet| && Last(run) == s
    ensures IsRun(r) && run <= r && PublishedUpTo(s, Last(r), t, i)
  {
    if i == 0 {
      r := run;
    } else {
      r := PublishUpTo(run, s, t, i - 1);
      r := PublishNext(r, s, t, i - 1);
    }
  }

  lemma PublishNext(run: seq<State>, s: State, t: Tid, i: nat) returns (r: seq<State>)
    requires IsRun(run) && Publishes(s, t) && i < |s.txs[t].writeSet| && PublishedUpTo(s, Last(run), t, i)
    ensures IsRun(r) && run <= r && PublishedUpTo(s, Last(r), t, i + 1)
  {
    FreshWrite(s.txs[t].writeSet, i);
    r := PublishSteps(run, t, i);
  }

  lemma PublishSteps(run: seq<State>, t: Tid, i: nat) returns (r: seq<State>)
    requires IsRun(run) && t < |Last(run).txs| && Last(run).txs[t].pc == Publishing(i)
    requires i < |Last(run).txs[t].writeSet| && Last(run).txs[t].wv > 0
    requires Last(run).cells[Last(run).txs[t].writeSet[i].loc].locked
    ensures IsRun(r) && run <= r
    ensures var s, x := Last(run), Last(run).txs[t];
            var l := x.writeSet[i].loc;
            Last(r) == SetCell(Put(s, t, x.(pc := Publishing(i + 1))), l,
                               s.cells[l].(val := x.writeSet[i].val, version := x.wv))
  {
    var x := Last(run).txs[t];
    r := Go(run, Tau(t));
    assert Last(r).txs[t] == x.(pc := VersionLoad(i));
    r := Go(r, Tau(t));
    assert Last(r).txs[t] == x.(pc := VersionStore(i, true));
    r := Go(r, Tau(t));
  }

  ghost predicate ReleasedUpTo(s: State, s': State, t: Tid, i: nat)
    requires t < |s.txs| && i <= |s.txs[t].writeSet| && s.txs[t].wv > 0
  {
    var x := s.txs[t];
    && s'.clock == s.clock && s'.nseg == s.nseg && s'.log == s.log
    && s'.txs == s.txs[t := x.(lockedSet := Locs(x.writeSet) - Locs(x.writeSet[..i]), pc := Unlocking(i, true))]
    && (forall j :: 0 <= j < |x.writeSet| ==>
          s'.cells[x.writeSet[j].loc] ==
          if j < i then Cell(x.writeSet[j].val, x.wv, false, None) else Cell(x.writeSet[j].val, x.wv, true, Some(t)))
    && forall l :: l !in Locs(x.writeSet) ==> s'.cells[l] == s.cells[l]
  }

  lemma {:induction false} ReleaseUpTo(run: seq<State>, s: State, t: Tid, i: nat) returns (r: seq<State>)
    requires IsRun(run) && Publishes(s, t) && i <= |s.txs[t].writeSet|
    requires PublishedUpTo(s, Last(run), t, |s.txs[t].writeSet|)
    ensures IsRun(r) && run <= r && ReleasedUpTo(s, Last(r), t, i)
  {
    var x := s.txs[t];
    if i == 0 {
      assert x.writeSet[..|x.writeSet|] == x.writeSet;
      r := Go(run, Tau(t));
      assert x.lockedSet - Locs(x.writeSet[..0]) == x.lockedSet;
    } else {
      r := ReleaseUpTo(run, s, t, i - 1);
      r := ReleaseNext(r, s, t, i - 1);
    }
  }

  lemma ReleaseNext(run: seq<State>, s: State, t: Tid, i: nat) returns (r: seq<State>)
    requires IsRun(run) && Publishes(s, t) && i < |s.txs[t].writeSet| && ReleasedUpTo(s, Last(run), t, i)
    ensures IsRun(r) && run <= r && ReleasedUpTo(s, Last(r), t, i + 1)
  {
    var x := s.txs[t];
    FreshWrite(x.writeSet, i);
    r := ReleaseSteps(run, t, i);
    assert Last(r).txs[t].lockedSet == Locs(x.writeSet) - Locs(x.writeSet[..i + 1]);
  }

  lemma ReleaseSteps(run: seq<State>, t: Tid, i: nat) returns (r: seq<State>)
    requires IsRun(run) && t < |Last(run).txs| && Last(run).txs[t].pc == Unlocking(i, true)
    requires i < |Last(run).txs[t].writeSet| && Last(run).txs[t].writeSet[i].loc in Last(run).txs[t].lockedSet
    ensures IsRun(r) && run <= r
    ensures var s, x := Last(run), Last(run).txs[t];
            var l := x.writeSet[i].loc;
            Last(r) == SetCell(Put(s, t, x.(lockedSet := x.lockedSet - {l}, pc := Unlocking(i + 1, true))), l,
                               s.cells[l].(locked := false, owner := None))
  {
    r := Go(run, Tau(t));
    r := Go(r, Tau(t));
  }

  /** `s` after transaction `t` has published everything and ended. */
  ghost predicate Ended(s: State, s': State, t: Tid)
    requires t < |s.txs| && s.txs[t].wv > 0
  {
    var x := s.txs[t];
    && s'.clock == s.clock && s'.nseg == s.nseg && s'.log == s.log
    && s'.txs == s.txs[t := x.(lockedSet := {}, pc := Finished(true))]
    && (forall j :: 0 <= j < |x.writeSet| ==> s'.cells[x.writeSet[j].loc] == Cell(x.writeSet[j].val, x.wv, false, None))
    && forall l :: Spares(x.writeSet, l) ==> s'.cells[l] == s.cells[l]
  }

  /** The rest of tm_end: write back with versions, then unlock. */
  lemma Finish(run: seq<State>, t: Tid) returns (r: seq<State>)
    requires IsRun(run) && Publishes(Last(run), t)
    ensures IsRun(r) && run <= r && Ended(Last(run), Last(r), t)
  {
    var s := Last(run);
    var x := s.txs[t];
    var n := |x.writeSet|;
    r := PublishUpTo(run, s, t, n);
    r := ReleaseUpTo(r, s, t, n);
    assert x.writeSet[..n] == x.writeSet;
    r := Go(r, Tau(t));
    assert Locs(x.writeSet) - Locs(x.writeSet) == {};
    forall l | Spares(x.writeSet, l) ensures Last(r).cells[l] == s.cells[l] { SparesIsNotIn(x.writeSet, l); }
  }

  /** A whole commit of an idle transaction that nobody disturbs. */
  ghost predicate CommittedAlone(s: State, s': State, t: Tid)
    requires t < |s.txs|
  {
    var x := s.txs[t];
    && s'.clock == s.clock + 1 && s'.nseg == s.nseg
    && s'.log == s.log[s.clock + 1 := Commit(t, x.writeSet, x.ops)]
    && s'.txs == s.txs[t := x.(wv := s.clock + 1, pc := Finished(true))]
    && (forall j :: 0 <= j < |x.writeSet| ==>
          s'.cells[x.writeSet[j].loc] == Cell(x.writeSet[j].val, s.clock + 1, false, None))
    && forall l :: Spares(x.writeSet, l) ==> s'.cells[l] == s.cells[l]
  }

  lemma CommitAlone(run: seq<State>, t: Tid) returns (r: seq<State>)
    requires IsRun(run) && Ready(Last(run), t) && Last(run).txs[t].pc.Idle?
    ensures IsRun(r) && run <= r && CommittedAlone(Last(run), Last(r), t)
  {
    var s := Last(run);
    r := Draw(run, t);
    var d := Last(r);
    r := Finish(r, t);
    forall l | Spares(s.txs[t].writeSet, l) ensures Last(r).cells[l] == s.cells[l] {
      SparesIsNotIn(s.txs[t].writeSet, l);
      assert d.cells[l] == s.cells[l];
    }
  }
}
