/** Strict serializability as one statement: a single sequence of all committed transactions that is legal
    step by step and respects real time. */
module StmSerial {
  import opened SharedMemory
  import opened Stm
  import opened StmInvariant
  import opened StmSteps
  import opened StmTheorems

  /** Has taken effect: a read-write transaction that is decided, or a read-only one that has committed with
      faithful copies. */
  ghost predicate Counts(s: State, t: Tid) {
    && t < |s.txs|
    && (Decided(s.txs[t]) || (s.txs[t].ro && Committed(s.txs[t]) && Faithful(s, s.txs[t])))
  }

  ghost predicate ReadsAt(s: State, t: Tid, v: nat) {
    Counts(s, t) && s.txs[t].ro && s.txs[t].rv == v
  }

  /** The read-only transactions among the first `n` that read the memory at version `v`, in the order in
      which they began. */
  ghost function Readers(s: State, v: nat, n: nat): seq<Tid> {
    if n == 0 then [] else Readers(s, v, n - 1) + if ReadsAt(s, n - 1, v) then [n - 1] else []
  }

  ghost function Writer(s: State, v: nat): seq<Tid> {
    if v in s.log then [s.log[v].tid] else []
  }

  /** Version after version, the writer first and then its readers. */
  ghost function Order(s: State, v: nat): seq<Tid> {
    (if v == 0 then [] else Order(s, v - 1) + Writer(s, v)) + Readers(s, v, |s.txs|)
  }

  predicate Within(s: State, order: seq<Tid>) {
    forall m :: 0 <= m < |order| ==> order[m] < |s.txs|
  }

  /** Memory after executing whole transactions one after another. */
  ghost function RunAll(s: State, order: seq<Tid>): Memory
    requires Within(s, order)
  {
    if order == [] then Zeroed()
    else RunOps(s.txs[order[|order| - 1]].ops, RunAll(s, order[..|order| - 1]))
  }

  /** Executed in this order, each transaction alone, all of them would read what they did read. */
  ghost predicate LegalAll(s: State, order: seq<Tid>)
    requires Within(s, order)
  {
    order == [] ||
    (LegalAll(s, order[..|order| - 1])
     && Legal(s.txs[order[|order| - 1]].ops, RunAll(s, order[..|order| - 1])))
  }

  /** `a` comes before `b`: by place, and level readers as they began. */
  predicate Less(s: State, a: Tid, b: Tid)
    requires a < |s.txs| && b < |s.txs|
  {
    Before(Place(s.txs[a]), Place(s.txs[b])) || (Place(s.txs[a]) == Place(s.txs[b]) && a < b)
  }

  predicate Sorted(s: State, order: seq<Tid>)
    requires Within(s, order)
  {
    forall m, n :: 0 <= m < n < |order| ==> Less(s, order[m], order[n])
  }

  // ---- One more transaction ----

  /** The order so far: legal, sorted, and leaving the memory `m`. */
  ghost predicate Good(s: State, order: seq<Tid>, m: Memory) {
    Within(s, order) && LegalAll(s, order) && Sorted(s, order) && RunAll(s, order) == m
  }

  /** Every member comes before `t`. */
  predicate AllLess(s: State, order: seq<Tid>, t: Tid)
    requires Within(s, order) && t < |s.txs|
  {
    forall m :: 0 <= m < |order| ==> Less(s, order[m], t)
  }

  /** Every member has a place before `p`. */
  predicate AllBefore(s: State, order: seq<Tid>, p: (int, int))
    requires Within(s, order)
  {
    forall m :: 0 <= m < |order| ==> Before(Place(s.txs[order[m]]), p)
  }

  lemma GoodAppend(s: State, order: seq<Tid>, m: Memory, t: Tid)
    requires Good(s, order, m) && t < |s.txs| && Legal(s.txs[t].ops, m) && AllLess(s, order, t)
    ensures Good(s, order + [t], RunOps(s.txs[t].ops, m))
  {
    assert (order + [t])[..|order|] == order;
  }

  lemma {:induction false} ReadsKeep(ops: seq<Op>, m: Memory)
    requires forall k :: 0 <= k < |ops| ==> ops[k].Read?
    ensures RunOps(ops, m) == m
  {
    if ops != [] { ReadsKeep(ops[..|ops| - 1], m); }
  }

  lemma ReaderAppend(run: seq<State>, i: nat, order: seq<Tid>, v: nat, t: Tid)
    requires IsRun(run) && i < |run| && ReadsAt(run[i], t, v)
    requires Good(run[i], order, SerialMem(run[i].log, v)) && AllLess(run[i], order, t)
    ensures Good(run[i], order + [t], SerialMem(run[i].log, v))
  {
    FaithfulSnapshot(run, i, t);
    SnapshotExactlyWhenFaithful(run, i, t);
    GoodAppend(run[i], order, SerialMem(run[i].log, v), t);
    ReadsKeep(run[i].txs[t].ops, SerialMem(run[i].log, v));
  }

  lemma {:induction false} ReadersMembers(s: State, v: nat, n: nat)
    ensures forall t: Tid :: t in Readers(s, v, n) <==> t < n && ReadsAt(s, t, v)
    ensures forall m :: 0 <= m < |Readers(s, v, n)| ==> Readers(s, v, n)[m] < n && ReadsAt(s, Readers(s, v, n)[m], v)
  {
    if n > 0 { ReadersMembers(s, v, n - 1); }
  }

  /** The first `n` transactions' readers at version `v` follow an order whose members all come before. */
  lemma {:induction false} ReadersGood(run: seq<State>, i: nat, before: seq<Tid>, v: nat, n: nat)
    requires IsRun(run) && i < |run| && n <= |run[i].txs|
    requires Good(run[i], before, SerialMem(run[i].log, v)) && AllBefore(run[i], before, (v, 1))
    ensures Good(run[i], before + Readers(run[i], v, n), SerialMem(run[i].log, v))
  {
    if n == 0 {
      assert before + [] == before;
    } else {
      ReadersGood(run, i, before, v, n - 1);
      NextReader(run, i, before, v, n - 1);
    }
  }

  lemma NextReader(run: seq<State>, i: nat, before: seq<Tid>, v: nat, t: Tid)
    requires IsRun(run) && i < |run| && t < |run[i].txs|
    requires Within(run[i], before) && AllBefore(run[i], before, (v, 1))
    requires Good(run[i], before + Readers(run[i], v, t), SerialMem(run[i].log, v))
    ensures Good(run[i], before + Readers(run[i], v, t + 1), SerialMem(run[i].log, v))
  {
    var readers := Readers(run[i], v, t);
    if ReadsAt(run[i], t, v) {
      LevelReaders(run[i], before, v, t);
      ReaderAppend(run, i, before + readers, v, t);
      assert before + (readers + [t]) == before + readers + [t];
    } else {
      assert readers + [] == readers;
    }
  }

  lemma LevelReaders(s: State, before: seq<Tid>, v: nat, t: Tid)
    requires t < |s.txs| && ReadsAt(s, t, v) && Within(s, before) && AllBefore(s, before, (v, 1))
    ensures Within(s, before + Readers(s, v, t)) && AllLess(s, before + Readers(s, v, t), t)
  {
    ReadersMembers(s, v, t);
  }

  lemma WriterGood(run: seq<State>, i: nat, before: seq<Tid>, v: nat)
    requires IsRun(run) && i < |run| && v > 0
    requires Good(run[i], before, SerialMem(run[i].log, v - 1)) && AllBefore(run[i], before, (v, 0))
    ensures Good(run[i], before + Writer(run[i], v), SerialMem(run[i].log, v))
    ensures AllBefore(run[i], before + Writer(run[i], v), (v, 1))
  {
    var s := run[i];
    RunInv(run, i);
    if v in s.log {
      assert TxInv(s, s.log[v].tid);
      LoggedIsLegal(s, v);
      GoodAppend(s, before, SerialMem(s.log, v - 1), s.log[v].tid);
    } else {
      assert before + [] == before;
    }
  }

  lemma {:induction false} OrderGood(run: seq<State>, i: nat, v: nat)
    requires IsRun(run) && i < |run|
    ensures Good(run[i], Order(run[i], v), SerialMem(run[i].log, v)) && AllBefore(run[i], Order(run[i], v), (v + 1, 0))
    decreases v
  {
    if v == 0 {
      ReadersGood(run, i, [], 0, |run[i].txs|);
      OrderPlaced(run[i], [], 0);
    } else {
      OrderGood(run, i, v - 1);
      WriterGood(run, i, Order(run[i], v - 1), v);
      ReadersGood(run, i, Order(run[i], v - 1) + Writer(run[i], v), v, |run[i].txs|);
      OrderPlaced(run[i], Order(run[i], v - 1) + Writer(run[i], v), v);
    }
  }

  lemma OrderPlaced(s: State, before: seq<Tid>, v: nat)
    requires Within(s, before) && AllBefore(s, before, (v, 1))
    ensures Within(s, before + Readers(s, v, |s.txs|)) && AllBefore(s, before + Readers(s, v, |s.txs|), (v + 1, 0))
  {
    ReadersMembers(s, v, |s.txs|);
  }

  lemma {:induction false} OrderComplete(s: State, v: nat)
    requires Inv(s)
    ensures forall t: Tid :: t in Order(s, v) <==> Counts(s, t) && Place(s.txs[t]).0 <= v
    decreases v
  {
    ReadersMembers(s, v, |s.txs|);
    if v == 0 {
      NothingAtZero(s);
    } else {
      OrderComplete(s, v - 1);
      OrderMembers(s, v);
    }
  }

  lemma NothingAtZero(s: State)
    requires Inv(s)
    ensures forall t: Tid :: Counts(s, t) && Place(s.txs[t]).0 <= 0 ==> ReadsAt(s, t, 0)
  {
    forall t: Tid | Counts(s, t) && Place(s.txs[t]).0 <= 0 ensures ReadsAt(s, t, 0) { assert TxInv(s, t); }
  }

  /** Version `v` adds its writer and its readers. */
  lemma OrderMembers(s: State, v: nat)
    requires Inv(s) && v > 0
    requires forall t: Tid :: t in Order(s, v - 1) <==> Counts(s, t) && Place(s.txs[t]).0 <= v - 1
    requires forall t: Tid :: t in Readers(s, v, |s.txs|) <==> t < |s.txs| && ReadsAt(s, t, v)
    ensures forall t: Tid :: t in Order(s, v) <==> Counts(s, t) && Place(s.txs[t]).0 <= v
  {
    forall t: Tid ensures t in Order(s, v) <==> Counts(s, t) && Place(s.txs[t]).0 <= v {
      if t < |s.txs| { assert TxInv(s, t); }
      if v in s.log { assert TxInv(s, s.log[v].tid); }
    }
  }

  lemma {:induction false} LegalEach(s: State, order: seq<Tid>, m: nat)
    requires Within(s, order) && LegalAll(s, order) && m < |order|
    ensures Legal(s.txs[order[m]].ops, RunAll(s, order[..m]))
  {
    var n := |order| - 1;
    if m < n {
      LegalEach(s, order[..n], m);
      assert order[..n][..m] == order[..m];
    }
  }

  /** All transactions that have taken effect, in one sequence: each once, executed one after another from
      the zeroed memory each reads what it did read and together they leave the serial memory, and a
      transaction that had ended before another began comes before it. */
  lemma StrictlySerializable(run: seq<State>, i: nat) returns (order: seq<Tid>)
    requires IsRun(run) && i < |run|
    ensures forall t: Tid :: t in order <==> Counts(run[i], t)
    ensures forall m, n :: 0 <= m < n < |order| ==> order[m] != order[n]
    ensures Within(run[i], order)
    ensures forall m :: 0 <= m < |order| ==> Legal(run[i].txs[order[m]].ops, RunAll(run[i], order[..m]))
    ensures RunAll(run[i], order) == SerialMem(run[i].log, run[i].clock)
    ensures RespectsRealTime(run, i, order)
  {
    order := Order(run[i], run[i].clock);
    OrderGood(run, i, run[i].clock);
    RunInv(run, i);
    OrderComplete(run[i], run[i].clock);
    AllWithinClock(run, i);
    forall m | 0 <= m < |order| ensures Legal(run[i].txs[order[m]].ops, RunAll(run[i], order[..m])) {
      LegalEach(run[i], order, m);
    }
    SortedIsRealTime(run, i, order);
  }

  lemma AllWithinClock(run: seq<State>, i: nat)
    requires IsRun(run) && i < |run|
    ensures forall t: Tid :: Counts(run[i], t) ==> Place(run[i].txs[t]).0 <= run[i].clock
  {
    RunInv(run, i);
    forall t: Tid | Counts(run[i], t) ensures Place(run[i].txs[t]).0 <= run[i].clock { assert TxInv(run[i], t); }
  }

  /** Whoever had ended, at whatever moment, before another began, stands before it. */
  ghost predicate RespectsRealTime(run: seq<State>, i: nat, order: seq<Tid>)
    requires i < |run|
  {
    forall m, n, j :: 0 <= m < |order| && 0 <= n < |order| && 0 <= j <= i && EndedBeforeBegun(run, j, order[m], order[n]) ==>
      m < n
  }

  lemma SortedIsRealTime(run: seq<State>, i: nat, order: seq<Tid>)
    requires IsRun(run) && i < |run| && Within(run[i], order) && Sorted(run[i], order)
    requires forall t: Tid :: t in order ==> Counts(run[i], t)
    ensures RespectsRealTime(run, i, order)
  {
    forall m, n, j | 0 <= m < |order| && 0 <= n < |order| && 0 <= j <= i && EndedBeforeBegun(run, j, order[m], order[n])
      ensures m < n
    {
      EndedIsLess(run, j, i, order[m], order[n]);
    }
  }

  predicate EndedBeforeBegun(run: seq<State>, j: nat, a: Tid, b: Tid)
    requires j < |run|
  {
    a < |run[j].txs| && run[j].txs[a].pc.Finished? && |run[j].txs| <= b
  }

  lemma EndedIsLess(run: seq<State>, j: nat, i: nat, a: Tid, b: Tid)
    requires IsRun(run) && j <= i < |run| && EndedBeforeBegun(run, j, a, b)
    requires Counts(run[i], a) && Counts(run[i], b)
    ensures Less(run[i], a, b)
  {
    RunEffects(run);
    EndedIsFinal(run, j, i, a);
    BegunLater(run, j, i, b);
    RunInv(run, j);
    assert TxInv(run[j], a);
    RunInv(run, i);
    assert TxInv(run[i], b);
  }
}
