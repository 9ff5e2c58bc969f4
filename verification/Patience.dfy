/** Waiting loops are followed for a bounded number of turns; giving up means that each turn found the loop's
    condition unmet, in a state of its own. */
module Patience {

  /** At each of the states `ks`, all from number `n` on and in order, `w` could not go on; each is followed
      by a step. */
  ghost predicate Blocked<S, W>(run: seq<S>, n: int, ks: seq<nat>, w: W, blocks: (W, S) -> bool) {
    && (forall m {:trigger ks[m]} :: 0 <= m < |ks| ==> n <= ks[m] < |run| - 1 && blocks(w, run[ks[m]]))
    && forall m, h :: 0 <= m < h < |ks| ==> ks[m] < ks[h]
  }

  /** From state `n` on, `turns` different states have been found in which `w` could not go on. */
  ghost predicate GaveUp<S, W>(run: seq<S>, n: int, turns: nat, w: W, blocks: (W, S) -> bool) {
    exists ks: seq<nat> :: |ks| == turns && Blocked(run, n, ks, w, blocks)
  }

  lemma NoTurns<S, W>(run: seq<S>, n: int, w: W, blocks: (W, S) -> bool)
    ensures GaveUp(run, n, 0, w, blocks)
  {
    assert Blocked(run, n, [], w, blocks);
  }

  lemma GaveUpLater<S, W>(run: seq<S>, run': seq<S>, n: int, n': int, turns: nat, w: W, blocks: (W, S) -> bool)
    requires run <= run' && n' <= n && GaveUp(run, n, turns, w, blocks)
    ensures GaveUp(run', n', turns, w, blocks)
  {
    var ks: seq<nat> :| |ks| == turns && Blocked(run, n, ks, w, blocks);
    assert Blocked(run', n', ks, w, blocks);
  }

  lemma OneMoreTurn<S, W>(run: seq<S>, run': seq<S>, n: int, turns: nat, k: nat, w: W, blocks: (W, S) -> bool)
    requires run <= run' && GaveUp(run, n, turns, w, blocks)
    requires n < |run| <= k + 1 < |run'| && blocks(w, run'[k])
    ensures GaveUp(run', n, turns + 1, w, blocks)
  {
    var ks: seq<nat> :| |ks| == turns && Blocked(run, n, ks, w, blocks);
    assert Blocked(run', n, ks + [k], w, blocks);
  }
}
