/** Runs in which reclamation does less than one might expect: a segment freed twice, and a segment freed
    although the transaction that marked it failed. */
module ReclamationRuns {
  import opened Options
  import opened Reclamation

  ghost function Last(run: seq<State>): State
    requires |run| > 0
  {
    run[|run| - 1]
  }

  ghost predicate Runs(run: seq<State>) {
    IsRun(run, 2) && |Last(run).status| == |Last(run).freed| == |Last(run).late| == 2
  }

  lemma Go(run: seq<State>, a: Action) returns (r: seq<State>)
    requires Runs(run) && Enabled(Last(run), a)
    ensures Runs(r) && Last(r) == Do(Last(run), a) && run <= r && |r| == |run| + 1
  {
    r := run + [Do(Last(run), a)];
    forall i | 0 <= i < |r| - 1 ensures StepAt(r, i) {
      if i < |run| - 1 { assert StepAt(run, i); } else { assert r[i] == Last(run); }
    }
    DoLengths(Last(run), a);
  }

  /** Segment 1 with its counts, and the counter of ended transactions, while nobody holds the lock. */
  ghost predicate Resting(s: State, counter: nat, status: Status, freed: nat, late: nat) {
    && s.holders == 0 && s.exclusive == None && s.counter == counter
    && |s.status| == |s.freed| == |s.late| == 2
    && s.status[0] == InUse && s.status[1] == status && s.freed[1] == freed && s.late[1] == late
  }

  /** One more transaction begins and ends. */
  lemma OneMore(run: seq<State>, counter: nat, status: Status, freed: nat, late: nat) returns (r: seq<State>)
    requires Runs(run) && Resting(Last(run), counter, status, freed, late) && counter < CLEANING_PERIOD
    ensures Runs(r) && Resting(Last(r), counter + 1, status, freed, late) && run <= r
    ensures Last(run).txs <= Last(r).txs
  {
    var t := |Last(run).txs|;
    r := Go(run, Begin);
    r := Go(r, Step(t));
    r := Go(r, Step(t));
    r := Go(r, End(t));
    r := Go(r, Step(t));
  }

  lemma {:induction false} ManyMore(run: seq<State>, n: nat, counter: nat, status: Status, freed: nat, late: nat)
      returns (r: seq<State>)
    requires Runs(run) && Resting(Last(run), counter, status, freed, late) && counter + n <= CLEANING_PERIOD
    ensures Runs(r) && Resting(Last(r), counter + n, status, freed, late) && run <= r
    ensures Last(run).txs <= Last(r).txs
  {
    if n == 0 {
      r := run;
    } else {
      r := ManyMore(run, n - 1, counter, status, freed, late);
      r := OneMore(r, counter + n - 1, status, freed, late);
    }
  }

  /** Transaction `t` has begun when it was time to clean, and stands before segment `i`. */
  ghost predicate Sweeping(s: State, t: nat, i: nat, status: Status, freed: nat, late: nat) {
    && s.holders == 0 && s.exclusive == Some(t) && |s.txs| == t + 1 && s.txs[t] == Scanning(i)
    && |s.status| == |s.freed| == |s.late| == 2
    && s.status[0] == InUse && s.status[1] == status && s.freed[1] == freed && s.late[1] == late
  }

  lemma StartClean(run: seq<State>, status: Status, freed: nat, late: nat) returns (r: seq<State>, t: nat)
    requires Runs(run) && Resting(Last(run), CLEANING_PERIOD, status, freed, late)
    ensures Runs(r) && Sweeping(Last(r), t, 0, status, freed, late) && run <= r
    ensures t == |Last(run).txs| && Last(run).txs <= Last(r).txs
  {
    t := |Last(run).txs|;
    r := Go(run, Begin);
    r := Go(r, Step(t));
    r := Go(r, Step(t));
  }

  /** A transaction that begins when it is time frees the marked segment, and is live afterwards. */
  lemma Clean(run: seq<State>, freed: nat, late: nat) returns (r: seq<State>, t: nat)
    requires Runs(run) && Resting(Last(run), CLEANING_PERIOD, ToBeDeleted, freed, late)
    ensures Runs(r) && run <= r && t == |Last(r).txs| - 1 && t >= |Last(run).txs| && Last(run).txs <= Last(r).txs
    ensures var s := Last(r);
            && s.txs[t] == Live && s.holders == 1 && s.exclusive == None && s.counter == 0
            && s.status[0] == InUse && s.status[1] == Deleted && s.freed[1] == freed + 1 && s.late[1] == late
  {
    r, t := StartClean(run, ToBeDeleted, freed, late);
    r := Go(r, Step(t));
    r := Go(r, Step(t));
    assert Sweeping(Last(r), t, 2, Deleted, freed + 1, late);
    r := Go(r, Step(t));
    r := FinishClean(r, t);
  }

  lemma FinishClean(run: seq<State>, t: nat) returns (r: seq<State>)
    requires Runs(run) && t == |Last(run).txs| - 1 && Last(run).txs[t] == ResetCounter
    requires Last(run).holders == 0
    ensures Runs(r) && run <= r
    ensures Last(r) == Last(run).(counter := 0, exclusive := None, holders := 1, txs := Last(run).txs[t := Live])
  {
    r := Go(run, Step(t));
    r := Go(r, Step(t));
    r := Go(r, Step(t));
  }

  /** Transaction 0 has allocated segment 1 and marked it. */
  ghost predicate Marked(s: State) {
    && s.txs == [Live] && s.holders == 1 && s.exclusive == None && s.counter == 0
    && s.status == [InUse, ToBeDeleted] && s.freed == [0, 0] && s.late == [0, 0]
  }

  lemma Mark() returns (r: seq<State>)
    ensures Runs(r) && Marked(Last(r))
  {
    r := [Initial(2)];
    r := Go(r, Begin);
    r := Go(r, Step(0));
    r := Go(r, Step(0));
    assert Last(r) == State(1, None, 0, 1, [InUse, Absent], [Live], [0, 0], [0, 0]);
    r := MarkOne(r);
  }

  lemma MarkOne(run: seq<State>) returns (r: seq<State>)
    requires Runs(run) && Last(run) == State(1, None, 0, 1, [InUse, Absent], [Live], [0, 0], [0, 0])
    ensures Runs(r) && Marked(Last(r))
  {
    r := Go(run, Alloc(0));
    r := Go(r, Step(0));
    assert Last(r).txs == [Live] && Last(r).status == [InUse, InUse];
    r := Go(r, Free(0, 1));
  }

  /** tm_free is not undone when its transaction fails: here transaction 0 has marked a segment at state
      `i` and fails in the next step, and the segment is freed all the same. */
  lemma FreedThoughFailedRun() returns (r: seq<State>, i: nat)
    ensures IsRun(r, 2) && i + 1 < |r|
    ensures Marked(r[i]) && r[i + 1] == Do(r[i], Fail(0))
    ensures |Last(r).freed| == |Last(r).status| == 2 && Last(r).freed[1] == 1 && Last(r).status[1] == Deleted
  {
    var start := Mark();
    i := |start| - 1;
    r := Go(start, Fail(0));
    var failed := r;
    assert failed[i] == start[i] == Last(start) && failed[i + 1] == Last(failed) == Do(failed[i], Fail(0));
    assert Resting(Last(failed), 0, ToBeDeleted, 0, 0);
    r := ManyMore(r, CLEANING_PERIOD, 0, ToBeDeleted, 0, 0);
    var t;
    r, t := Clean(r, 0, 0);
    assert r[i] == failed[i] && r[i + 1] == failed[i + 1];
  }

  /** Free-at-most-once fails when a client marks a deleted segment: it is freed a second time. */
  lemma FreedTwiceRun() returns (r: seq<State>)
    ensures IsRun(r, 2) && |Last(r).freed| == |Last(r).late| == 2 && Last(r).freed[1] == 2 && Last(r).late[1] == 1
  {
    r := Mark();
    r := Go(r, Fail(0));
    assert Resting(Last(r), 0, ToBeDeleted, 0, 0);
    r := ManyMore(r, CLEANING_PERIOD, 0, ToBeDeleted, 0, 0);
    var t;
    r, t := Clean(r, 0, 0);
    r := Go(r, Free(t, 1));
    r := Go(r, End(t));
    r := Go(r, Step(t));
    assert Resting(Last(r), 1, ToBeDeleted, 1, 1);
    r := ManyMore(r, CLEANING_PERIOD - 1, 1, ToBeDeleted, 1, 1);
    r, t := Clean(r, 1, 1);
  }
}
