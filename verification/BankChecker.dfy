/** What the checkers of the bank report (grading/workload.hpp lines 161-182 and 287-291), for any answers
    at all: a verdict is a fact about the values read, not about the memory that should have been there. */
module BankChecker {
  import opened SharedMemory
  import opened Stm
  import opened Bank
  import opened BankProgram

  // ---- What a trace has read, by the place of the word in its segment ----

  predicate IsRead(o: Op, off: nat) {
    o.Read? && o.loc.off == off
  }

  /** The account counts read, added up. */
  function CountsIn(ops: seq<Op>): nat {
    if ops == [] then 0
    else CountsIn(ops[..|ops| - 1]) + if IsRead(ops[|ops| - 1], COUNT) then Index(ops[|ops| - 1].val) else 0
  }

  /** The parities read, added up. */
  function ParitiesIn(ops: seq<Op>): int {
    if ops == [] then 0
    else ParitiesIn(ops[..|ops| - 1]) + if IsRead(ops[|ops| - 1], PARITY) then ops[|ops| - 1].val else 0
  }

  /** The balances read, in order. */
  function BalancesIn(ops: seq<Op>): seq<int> {
    if ops == [] then []
    else
      var o := ops[|ops| - 1];
      BalancesIn(ops[..|ops| - 1]) + if o.Read? && o.loc.off >= FIRST then [o.val] else []
  }

  predicate NoneNegative(xs: seq<int>) {
    forall i :: 0 <= i < |xs| ==> xs[i] >= 0
  }

  // ---- The long transaction ----

  /** Accounts announced by a count and not yet read. */
  function Awaited(b: Local): nat {
    match b
    case LongParity(_, _, _, n) => n
    case LongAccount(_, _, _, n, i) => if i <= n then n - i else 0
    case _ => 0
  }

  /** Local variables of the long transaction after its operations. */
  predicate Tallies(p: Params, b: Local, counts: nat, parities: int, balances: seq<int>) {
    match b
    case LongCount(count, sum, _) => Adds(b, count, sum, counts, parities, balances)
    case LongParity(count, sum, _, n) => Adds(b, count, sum, counts, parities, balances)
    case LongAccount(count, sum, _, n, i) => i < n && Adds(b, count, sum, counts, parities, balances)
    case LongNext(count, sum, _) => Adds(b, count, sum, counts, parities, balances)
    case Emit(ws, result) =>
      && ws == []
      && (result <==> NoneNegative(balances) && parities + Sum(balances) == p.initBalance * counts)
      && (NoneNegative(balances) ==> |balances| == counts)
    case _ => false
  }

  predicate Adds(b: Local, count: nat, sum: int, counts: nat, parities: int, balances: seq<int>) {
    && NoneNegative(balances) && |balances| + Awaited(b) == counts
    && count == counts && sum == parities + Sum(balances)
  }

  lemma SumMore(xs: seq<int>, x: int)
    ensures Sum(xs + [x]) == Sum(xs) + x
  {
    assert (xs + [x])[..|xs|] == xs;
  }

  lemma TallyStep(p: Params, b: Local, o: Op, counts: nat, parities: int, balances: seq<int>)
    requires Tallies(p, b, counts, parities, balances) && Answers(Pending(b), o)
    ensures Tallies(p, Feed(p, b, Answer(o)),
                    counts + (if IsRead(o, COUNT) then Index(o.val) else 0),
                    parities + (if IsRead(o, PARITY) then o.val else 0),
                    balances + if o.Read? && o.loc.off >= FIRST then [o.val] else [])
  {
    if o.Read? && o.loc.off >= FIRST {
      SumMore(balances, o.val);
      if o.val < 0 { assert (balances + [o.val])[|balances|] < 0; }
    } else {
      assert balances + [] == balances;
    }
  }

  lemma {:induction false} TraceTallies(p: Params, ops: seq<Op>)
    requires Follows(p, LongCount(0, 0, 0), ops)
    ensures Tallies(p, After(p, LongCount(0, 0, 0), ops), CountsIn(ops), ParitiesIn(ops), BalancesIn(ops))
  {
    if ops != [] {
      var n := |ops| - 1;
      TraceTallies(p, ops[..n]);
      TallyStep(p, After(p, LongCount(0, 0, 0), ops[..n]), ops[n], CountsIn(ops[..n]), ParitiesIn(ops[..n]), BalancesIn(ops[..n]));
    }
  }

  /** Whatever its reads return, the long transaction reports no violation if and only if no balance it read
      is negative and all parities and balances it read add up to the initial balance times the counts it
      read; and then it has read one balance for each account counted. */
  lemma LongVerdict(p: Params, ops: seq<Op>)
    requires Completes(p, LongCount(0, 0, 0), ops)
    ensures Result(p, LongCount(0, 0, 0), ops) <==>
              && (forall i :: 0 <= i < |BalancesIn(ops)| ==> BalancesIn(ops)[i] >= 0)
              && ParitiesIn(ops) + Sum(BalancesIn(ops)) == p.initBalance * CountsIn(ops)
    ensures Result(p, LongCount(0, 0, 0), ops) ==> |BalancesIn(ops)| == CountsIn(ops)
  {
    TraceTallies(p, ops);
  }

  // ---- init's check ----

  /** init's check reads the first account once, and passes if and only if it holds the initial balance. */
  lemma CheckVerdict(p: Params, ops: seq<Op>)
    requires Completes(p, CheckFirst, ops)
    ensures |ops| == 1 && ops[0].Read? && ops[0].loc == Loc(0, FIRST)
    ensures Result(p, CheckFirst, ops) <==> ops[0].val == p.initBalance
  {
    CheckTrace(p, ops);
  }

  lemma {:induction false} CheckTrace(p: Params, ops: seq<Op>)
    requires Follows(p, CheckFirst, ops)
    ensures |ops| <= 1
    ensures |ops| == 1 ==> ops[0].Read? && ops[0].loc == Loc(0, FIRST)
                           && After(p, CheckFirst, ops) == Emit([], ops[0].val == p.initBalance)
  {
    if ops != [] {
      var n := |ops| - 1;
      CheckTrace(p, ops[..n]);
      if n == 0 { assert ops[..0] == []; }
    }
  }
}
