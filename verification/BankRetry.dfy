/** Retries of short_tx (grading/workload.hpp lines 232-275).  The closure captures the two indices by
    reference and subtracts from them, so a retry starts with what the failed attempt has left in them. */
module BankRetry {
  import opened Options
  import opened SharedMemory
  import opened Stm
  import opened StmTheorems
  import opened Bank
  import opened BankProgram
  import opened BankSteps

  /** The first local state of short_tx. */
  function Start(send: nat, recv: nat): Local {
    ShortCount(send, recv, None, None, 0)
  }

  /** What the closure's captured variables hold: the indices, and the pointers found so far. */
  datatype Captured = Captured(send: nat, recv: nat, sender: Option<Loc>, recver: Option<Loc>)

  /** Lines 242-259 for a segment of `n` accounts. */
  function Pass(c: Captured, seg: nat, n: nat): Captured {
    var (send, sender) := Seek(c.send, c.sender, seg, n);
    var (recv, recver) := Seek(c.recv, c.recver, seg, n);
    Captured(send, recv, sender, recver)
  }

  /** The captured variables after the operations `ops` of an attempt: only counts read in the loop change
      them, whatever the attempt does afterwards. */
  function Left(p: Params, send: nat, recv: nat, ops: seq<Op>): Captured {
    if ops == [] then Captured(send, recv, None, None)
    else
      var b := After(p, Start(send, recv), ops[..|ops| - 1]);
      var c := Left(p, send, recv, ops[..|ops| - 1]);
      if b.ShortCount? then Pass(c, b.seg, Index(Answer(ops[|ops| - 1]))) else c
  }

  /** The sum of all counts read in the loop. */
  function CountsRead(p: Params, send: nat, recv: nat, ops: seq<Op>): nat {
    if ops == [] then 0
    else
      var b := After(p, Start(send, recv), ops[..|ops| - 1]);
      CountsRead(p, send, recv, ops[..|ops| - 1]) + if b.ShortCount? then Index(Answer(ops[|ops| - 1])) else 0
  }

  /** The local state agrees with the captured variables. */
  predicate Agrees(b: Local, c: Captured) {
    && (b.ShortCount? || b.ShortNext? ==> c == Captured(b.send, b.recv, b.sender, b.recver))
    && (b.ShortSender? ==> c.sender == Some(b.s) && c.recver == Some(b.r))
  }

  predicate Remains(k: nat, left: nat, found: Option<Loc>, counts: nat) {
    match found
    case None => left == k - counts
    case Some(l) => l.off == FIRST + left
  }

  /** Whatever the reads return and however many segments are passed: an index whose account has not been
      found is what it was less all counts read, and one whose account has been found is left as the
      account's place in its segment. */
  lemma {:induction false} LeftIsRemainder(p: Params, send: nat, recv: nat, ops: seq<Op>)
    requires Follows(p, Start(send, recv), ops)
    ensures var c, counts := Left(p, send, recv, ops), CountsRead(p, send, recv, ops);
            && Remains(send, c.send, c.sender, counts) && Remains(recv, c.recv, c.recver, counts)
            && Agrees(After(p, Start(send, recv), ops), c)
  {
    if ops != [] {
      var n := |ops| - 1;
      LeftIsRemainder(p, send, recv, ops[..n]);
      StillAgrees(p, After(p, Start(send, recv), ops[..n]), Left(p, send, recv, ops[..n]), ops[n]);
    }
  }

  lemma StillAgrees(p: Params, b: Local, c: Captured, o: Op)
    requires Agrees(b, c) && Answers(Pending(b), o)
    ensures Agrees(Feed(p, b, Answer(o)), if b.ShortCount? then Pass(c, b.seg, Index(Answer(o))) else c)
  {
  }

  // ---- On a sound bank ----

  /** An account found is the one asked for when the attempt began. */
  lemma {:induction false} FoundIsAsked(p: Params, send: nat, recv: nat, bank: Accounts, m0: Memory, used: set<nat>, ops: seq<Op>)
    requires Ready(p, bank, m0, used)
    requires Follows(p, Start(send, recv), ops) && Legal(ops, m0) && FreshAllocs(ops, used)
    ensures var c := Left(p, send, recv, ops);
            && (c.sender.Some? ==> IsAccount(bank, send, c.sender.value))
            && (c.recver.Some? ==> IsAccount(bank, recv, c.recver.value))
  {
    if ops != [] {
      var n := |ops| - 1;
      LegalPrefix(ops, m0);
      FreshPrefix(ops, used);
      FoundIsAsked(p, send, recv, bank, m0, used, ops[..n]);
      var b := After(p, Start(send, recv), ops[..n]);
      if b.ShortCount? {
        BodyProgress(p, Start(send, recv), bank, m0, used, ops[..n]);
        OneMore(p, Start(send, recv), m0, used, ops);
        LeftIsRemainder(p, send, recv, ops[..n]);
        PassFinds(p, send, recv, bank, m0, b, Answer(ops[n]));
      }
    }
  }

  lemma PassFinds(p: Params, send: nat, recv: nat, bank: Accounts, m: Memory, b: Local, v: Val)
    requires Sound(p, bank) && Stored(m, bank) && b.ShortCount? && Walking(p, Start(send, recv), bank, b) && v == m[Pending(b).l]
    ensures var c := Pass(Captured(b.send, b.recv, b.sender, b.recver), b.seg, Index(v));
            && (c.sender.Some? ==> IsAccount(bank, send, c.sender.value))
            && (c.recver.Some? ==> IsAccount(bank, recv, c.recver.value))
  {
    var j: nat :| AtSegment(bank, j, b.seg)
      && Sought(bank, j, send, b.send, b.sender) && Sought(bank, j, recv, b.recv, b.recver);
    StoredSegment(m, bank, j);
    SeekStep(bank, j, send, b.send, b.sender);
    SeekStep(bank, j, recv, b.recv, b.recver);
  }

  /** The place of account `k` in its segment is `k` itself exactly when it lies in the first segment. */
  lemma PlaceInSegment(p: Params, bank: Accounts, k: nat, l: Loc)
    requires Sound(p, bank) && IsAccount(bank, k, l)
    ensures l.off >= FIRST && (l.off - FIRST == k <==> k < |bank[0].accounts|)
  {
    var j: nat, i: nat :| IsAt(bank, k, j, i) && l == Account(bank[j].id, i);
    assert bank[..0] == [];
    if j > 0 {
      CountPrefix(bank, 0);
      CountGrows(bank, 1, j);
    }
  }

  lemma {:induction false} CountGrows(b: Accounts, i: nat, j: nat)
    requires i <= j <= |b|
    ensures Count(b[..i]) <= Count(b[..j])
  {
    if i < j {
      CountGrows(b, i, j - 1);
      CountPrefix(b, j - 1);
    }
  }

  /** An attempt that has found an account in a sound bank leaves the index as it was, so that a retry looks
      for the same account, if and only if the account lies in the first segment. */
  lemma RetryAsksTheSame(p: Params, send: nat, recv: nat, bank: Accounts, m0: Memory, used: set<nat>, ops: seq<Op>)
    requires Ready(p, bank, m0, used)
    requires Follows(p, Start(send, recv), ops) && Legal(ops, m0) && FreshAllocs(ops, used)
    ensures var c := Left(p, send, recv, ops);
            && (c.sender.Some? ==> (c.send == send <==> send < |bank[0].accounts|))
            && (c.recver.Some? ==> (c.recv == recv <==> recv < |bank[0].accounts|))
            && (c.sender == None ==> (c.send == send <==> CountsRead(p, send, recv, ops) == 0))
            && (c.recver == None ==> (c.recv == recv <==> CountsRead(p, send, recv, ops) == 0))
  {
    LeftIsRemainder(p, send, recv, ops);
    FoundIsAsked(p, send, recv, bank, m0, used, ops);
    var c := Left(p, send, recv, ops);
    if c.sender.Some? { PlaceInSegment(p, bank, send, c.sender.value); }
    if c.recver.Some? { PlaceInSegment(p, bank, recv, c.recver.value); }
  }
}
