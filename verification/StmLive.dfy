/** What a live read-write transaction may see.  It has checked each lock word before it copied the word,
    so its view can mix versions; but whatever it copied of a newer commit, it cannot read another word
    of that commit afterwards. */
module StmLive {
  import opened Options
  import opened SharedMemory
  import opened Stm
  import opened StmInvariant
  import opened StmSteps
  import opened StmTheorems

  // ---- Words in the middle of a write-back ----

  /** Redo-log entries that have been copied to memory. */
  function Done(x: Tx): seq<Write> {
    match x.pc
    case Publishing(i) => if i <= |x.writeSet| then x.writeSet[..i] else x.writeSet
    case VersionLoad(i) => if i < |x.writeSet| then x.writeSet[..i + 1] else x.writeSet
    case VersionStore(i, _) => if i < |x.writeSet| then x.writeSet[..i + 1] else x.writeSet
    case _ => x.writeSet
  }

  /** A word held by a decided transaction has the last of its values copied so far, or the value before. */
  ghost predicate MidCopy(s: State, l: Loc) {
    match s.cells[l].owner
    case None => true
    case Some(u) =>
      u < |s.txs| && Decided(s.txs[u]) && s.txs[u].wv > 0 ==>
        s.cells[l].val == Overlay(Done(s.txs[u]), l, At(s.log, l, s.txs[u].wv - 1))
  }

  /** Nobody else can still decide a commit that writes a word one holds. */
  lemma HeldIsFrozen(s: State, l: Loc, v: int)
    requires Inv(s) && s.cells[l].owner.Some? && s.cells[l].owner.value < |s.txs| && !Undecided(s.txs[s.cells[l].owner.value])
    ensures Frozen(s.txs, l, v)
  {
    forall u | 0 <= u < |s.txs| && Undecided(s.txs[u]) && s.txs[u].wv <= v ensures l !in Locs(s.txs[u].writeSet) {
      assert TxInv(s, u);
    }
  }

  /** A step that neither touches the word nor brings its owner further. */
  lemma MidCopyKept(s: State, s': State, t: Tid, l: Loc)
    requires Inv(s) && MidCopy(s, l) && Effect(s, s', t)
    requires s'.cells[l].owner == s.cells[l].owner && s'.cells[l].val == s.cells[l].val
    requires s.cells[l].owner.Some? ==>
               var u := s.cells[l].owner.value;
               u < |s.txs| && u < |s'.txs| && (Decided(s'.txs[u]) ==>
                 Decided(s.txs[u]) && s'.txs[u].wv == s.txs[u].wv && Done(s'.txs[u]) == Done(s.txs[u]))
    ensures MidCopy(s', l)
  {
    if s.cells[l].owner.Some? {
      var u := s.cells[l].owner.value;
      if Decided(s'.txs[u]) && s'.txs[u].wv > 0 {
        assert TxInv(s, u);
        HeldIsFrozen(s, l, s.txs[u].wv - 1);
        ValueStable(s, s', t, l, s.txs[u].wv - 1);
      }
    }
  }

  /** What was in memory when the commit was decided is the value before it. */
  lemma MidCopyDecided(s: State, s': State, t: Tid, l: Loc)
    requires Inv(s) && Effect(s, s', t) && t < |s.txs| && s.cells[l].owner == Some(t) && s'.cells[l] == s.cells[l]
    requires !Decided(s.txs[t]) && s'.txs[t].pc == Publishing(0) && s'.txs[t].wv > 0
    requires if s.txs[t].wv > 0 then s'.txs[t].wv == s.txs[t].wv && s.txs[t].wv <= s.clock else s'.txs[t].wv == s.clock + 1
    requires s'.log == s.log[s'.txs[t].wv := Commit(t, s.txs[t].writeSet, s.txs[t].ops)] && s'.txs[t].wv !in s.log
    ensures MidCopy(s', l)
  {
    var w := s'.txs[t].wv;
    assert TxInv(s, t) && CellInv(s, l);
    assert s'.txs[t].writeSet[..0] == [];
    assert s.cells[l].val == At(s.log, l, s.clock);
    if s.txs[t].wv > 0 {
      LastHolder(s, l, t);
      AtQuiet(s.log, l, w, s.clock);
    }
    AtSame(s.log, s'.log, l, w - 1);
  }

  lemma MidCopyPublish(s: State, t: Tid, l: Loc)
    requires Inv(s) && MidCopy(s, l) && t < |s.txs| && s.txs[t].pc.Publishing? && s.txs[t].pc.i < |s.txs[t].writeSet|
    requires s.cells[l].owner == Some(t)
    ensures MidCopy(DoPublishing(s, t), l)
  {
    var x := s.txs[t];
    var i := x.pc.i;
    assert TxInv(s, t);
    assert x.writeSet[..i + 1][..i] == x.writeSet[..i];
  }

  /** Publishing apart, a step of the owner leaves the copied part of its redo log alone, or has none yet. */
  lemma DoneKept(s: State, t: Tid)
    requires Enabled(s, Tau(t)) && TxInv(s, t) && Decided(s.txs[t])
    requires !(s.txs[t].pc.Publishing? && s.txs[t].pc.i < |s.txs[t].writeSet|)
    ensures var s' := DoTau(s, t);
            && t < |s'.txs| && Done(s'.txs[t]) == Done(s.txs[t]) && s'.txs[t].wv == s.txs[t].wv
            && forall l :: s'.cells[l].val == s.cells[l].val && (s'.cells[l].owner == s.cells[l].owner || s'.cells[l].owner == None)
  {
    var x := s.txs[t];
    if x.pc.Publishing? { assert x.writeSet[..x.pc.i] == x.writeSet; }
  }

  /** A step of a transaction that is not decided yet changes no value. */
  lemma UndecidedStep(s: State, t: Tid)
    requires Enabled(s, Tau(t)) && TxInv(s, t) && !Decided(s.txs[t])
    ensures t < |DoTau(s, t).txs|
    ensures forall l :: DoTau(s, t).cells[l].val == s.cells[l].val
    ensures forall l :: DoTau(s, t).cells[l].owner in {s.cells[l].owner, None} || (!s.cells[l].locked && !Decided(DoTau(s, t).txs[t]))
  {
    var pc := s.txs[t].pc;
    if pc.Tick? || pc.Validating? { DecidingStep(s, t); } else { UndecidedRest(s, t); }
  }

  lemma UndecidedRest(s: State, t: Tid)
    requires Enabled(s, Tau(t)) && TxInv(s, t) && !Decided(s.txs[t]) && !s.txs[t].pc.Tick? && !s.txs[t].pc.Validating?
    ensures t < |DoTau(s, t).txs| && !Decided(DoTau(s, t).txs[t])
    ensures forall l :: DoTau(s, t).cells[l].val == s.cells[l].val
    ensures forall l :: DoTau(s, t).cells[l].owner in {s.cells[l].owner, None} || !s.cells[l].locked
  {
    var pc := s.txs[t].pc;
    if pc.TryCas? || pc.UnlockStore? {
    } else {
      QuietStep(s, t);
    }
  }

  lemma QuietStep(s: State, t: Tid)
    requires Enabled(s, Tau(t)) && TxInv(s, t) && !Decided(s.txs[t])
    requires var pc := s.txs[t].pc; !pc.Tick? && !pc.Validating? && !pc.TryCas? && !pc.UnlockStore?
    ensures DoTau(s, t).cells == s.cells && t < |DoTau(s, t).txs| && !Decided(DoTau(s, t).txs[t])
  {
    if s.txs[t].ro { QuietReadOnly(s, t); }
  }

  lemma QuietReadOnly(s: State, t: Tid)
    requires Enabled(s, Tau(t)) && TxInv(s, t) && s.txs[t].ro
    ensures DoTau(s, t).cells == s.cells && t < |DoTau(s, t).txs| && !Decided(DoTau(s, t).txs[t])
  {
  }

  /** The steps in which a commit may be decided. */
  lemma DecidingStep(s: State, t: Tid)
    requires Enabled(s, Tau(t)) && TxInv(s, t) && (s.txs[t].pc.Tick? || s.txs[t].pc.Validating?)
    ensures var s' := DoTau(s, t);
            && t < |s'.txs| && s'.cells == s.cells
            && (Decided(s'.txs[t]) ==>
                  && s'.txs[t].pc == Publishing(0) && s'.txs[t].wv > 0
                  && (if s.txs[t].wv > 0 then s'.txs[t].wv == s.txs[t].wv else s'.txs[t].wv == s.clock + 1)
                  && s'.log == s.log[s'.txs[t].wv := Commit(t, s.txs[t].writeSet, s.txs[t].ops)])
  {
  }

  lemma MidCopyStep(s: State, a: Action, l: Loc)
    requires Inv(s) && Enabled(s, a) && MidCopy(s, l)
    ensures MidCopy(Do(s, a), l)
  {
    DoOk(s, a);
    assert CellInv(s, l);
    if a.Tau? && s.cells[l].owner == Some(a.t) {
      OwnerStep(s, a.t, l);
    } else {
      NotOwnerStep(s, a, l);
    }
  }

  lemma OwnerStep(s: State, t: Tid, l: Loc)
    requires Inv(s) && Enabled(s, Tau(t)) && MidCopy(s, l) && s.cells[l].owner == Some(t)
    requires Effect(s, DoTau(s, t), t)
    ensures MidCopy(DoTau(s, t), l)
  {
    var s' := DoTau(s, t);
    assert TxInv(s, t);
    if Decided(s.txs[t]) {
      if s.txs[t].pc.Publishing? && s.txs[t].pc.i < |s.txs[t].writeSet| {
        MidCopyPublish(s, t, l);
      } else {
        DoneKept(s, t);
        if s'.cells[l].owner.Some? { MidCopyKept(s, s', t, l); }
      }
    } else {
      UndecidedStep(s, t);
      if Decided(s'.txs[t]) { OwnerDecides(s, t, l); }
    }
  }

  lemma OwnerDecides(s: State, t: Tid, l: Loc)
    requires Inv(s) && Enabled(s, Tau(t)) && s.cells[l].owner == Some(t) && !Decided(s.txs[t])
    requires Effect(s, DoTau(s, t), t) && Decided(DoTau(s, t).txs[t])
    ensures MidCopy(DoTau(s, t), l)
  {
    assert TxInv(s, t);
    if !s.txs[t].pc.Tick? && !s.txs[t].pc.Validating? { UndecidedRest(s, t); }
    DecidingStep(s, t);
    assert s.clock + 1 !in s.log;
    MidCopyDecided(s, DoTau(s, t), t, l);
  }

  lemma NotOwnerStep(s: State, a: Action, l: Loc)
    requires Inv(s) && Enabled(s, a) && MidCopy(s, l) && CellInv(s, l) && Effect(s, Do(s, a), Mover(s, a))
    requires a.Tau? ==> s.cells[l].owner != Some(a.t)
    ensures MidCopy(Do(s, a), l)
  {
    var s' := Do(s, a);
    match a {
      case Begin(_) => MidCopyKept(s, s', Mover(s, a), l);
      case Invoke(t, c) => CallKeeps(s, t, c); MidCopyKept(s, s', t, l);
      case Tau(t) =>
        assert TxInv(s, t);
        if s.cells[l].owner == None {
          if !Decided(s.txs[t]) { UndecidedStep(s, t); }
        } else {
          MidCopyKept(s, s', t, l);
        }
    }
  }

  lemma CallKeeps(s: State, t: Tid, c: Call)
    requires Enabled(s, Invoke(t, c))
    ensures var s' := DoCall(s, t, c);
            s'.cells == s.cells && |s'.txs| == |s.txs| && !Decided(s.txs[t]) && !Decided(s'.txs[t])
            && forall u :: 0 <= u < |s.txs| && u != t ==> s'.txs[u] == s.txs[u]
  {
  }

  // ---- What a live transaction has read ----

  lemma {:induction false} OverlayIsWritten(ws: seq<Write>, l: Loc, d: Val)
    requires l in Locs(ws)
    ensures Write(l, Overlay(ws, l, d)) in ws
  {
    var n := |ws| - 1;
    if ws[n].loc != l {
      OverlayIsWritten(ws[..n], l, d);
    } else {
      assert ws[n] == Write(l, ws[n].val);
    }
  }

  /** The serial value of a word is an older one, or some commit in between has written it. */
  lemma {:induction false} AtIsWritten(log: map<nat, Commit>, l: Loc, a: nat, b: nat)
    requires a <= b
    ensures At(log, l, b) == At(log, l, a) || exists w :: w in log && a < w <= b && Write(l, At(log, l, b)) in log[w].writes
    decreases b
  {
    if a < b {
      if b in log && l in Locs(log[b].writes) {
        OverlayIsWritten(log[b].writes, l, At(log, l, b - 1));
      } else {
        AtIsWritten(log, l, a, b - 1);
        if b in log { OverlayDefault(log[b].writes, l, At(log, l, b - 1), 0); }
      }
    }
  }

  /** A commit newer than `rv` wrote the value. */
  ghost predicate WrittenLater(s: State, l: Loc, v: Val, rv: nat, w: nat) {
    w in s.log && w > rv && Write(l, v) in s.log[w].writes
  }

  /** A copy made when no old writer holds the word is the value at `rv`, or comes from a newer commit. */
  lemma CopiedValue(s: State, l: Loc, rv: nat)
    requires Inv(s) && MidCopy(s, l) && rv <= s.clock && OldWriter(s, l, rv) == None
    ensures s.cells[l].val == At(s.log, l, rv) || exists w :: WrittenLater(s, l, s.cells[l].val, rv, w)
  {
    assert CellInv(s, l);
    if s.cells[l].owner.Some? && Decided(s.txs[s.cells[l].owner.value]) {
      CopiedFromDecided(s, l, rv, s.cells[l].owner.value);
    } else {
      if s.cells[l].owner.Some? { assert TxInv(s, s.cells[l].owner.value); }
      assert s.cells[l].val == At(s.log, l, s.clock);
      AtIsWritten(s.log, l, rv, s.clock);
      if s.cells[l].val != At(s.log, l, rv) {
        var w :| w in s.log && rv < w <= s.clock && Write(l, At(s.log, l, s.clock)) in s.log[w].writes;
        assert WrittenLater(s, l, s.cells[l].val, rv, w);
      }
    }
  }

  lemma CopiedFromDecided(s: State, l: Loc, rv: nat, u: Tid)
    requires Inv(s) && MidCopy(s, l) && OldWriter(s, l, rv) == None
    requires s.cells[l].owner == Some(u) && u < |s.txs| && Decided(s.txs[u])
    ensures s.cells[l].val == At(s.log, l, rv) || exists w :: WrittenLater(s, l, s.cells[l].val, rv, w)
  {
    var x := s.txs[u];
    assert TxInv(s, u);
    if l in Locs(Done(x)) {
      OverlayIsWritten(Done(x), l, At(s.log, l, x.wv - 1));
      assert Write(l, s.cells[l].val) in x.writeSet;
      assert WrittenLater(s, l, s.cells[l].val, rv, x.wv);
    } else {
      OverlayDefault(Done(x), l, At(s.log, l, x.wv - 1), 0);
      AtIsWritten(s.log, l, rv, x.wv - 1);
      if s.cells[l].val != At(s.log, l, rv) {
        var w :| w in s.log && rv < w <= x.wv - 1 && Write(l, At(s.log, l, x.wv - 1)) in s.log[w].writes;
        assert WrittenLater(s, l, s.cells[l].val, rv, w);
      }
    }
  }

  /** A lock word that passes the check belongs to no word that a newer commit wrote. */
  lemma PassesNoNewer(s: State, l: Loc, rv: nat, w: nat)
    requires Inv(s) && UnlockedAndOld(s, l, rv) && w in s.log && w > rv
    ensures l !in Locs(s.log[w].writes)
  {
    assert CellInv(s, l);
    if l in Locs(s.log[w].writes) {
      assert Published(s, l, w);
      OweOnlyOwned(s, l, s.log[w].tid);
    }
  }

  /** No read after read `k`, nor one whose check has passed, is of a word in `ws`. */
  predicate Avoids(x: Tx, ws: seq<Write>, k: nat) {
    && (forall h :: k < h < |x.ops| && x.ops[h].Read? ==> x.ops[h].loc !in Locs(ws))
    && (x.pc.RwCopy? ==> x.pc.l !in Locs(ws))
  }

  ghost predicate FromLater(s: State, x: Tx, k: nat)
    requires k < |x.ops| && x.ops[k].Read?
  {
    exists w :: WrittenLater(s, x.ops[k].loc, x.ops[k].val, x.rv, w) && Avoids(x, s.log[w].writes, k)
  }

  predicate FromMemory(x: Tx, k: nat)
    requires k < |x.ops|
  {
    x.ops[k].Read? && x.ops[k].loc !in Locs(StoresOf(x.ops[..k]))
  }

  /** Read `k` of a live transaction returned the value at its read version, or one of a newer commit of
      which it has read nothing else since. */
  ghost predicate LiveRead(s: State, x: Tx, k: nat)
    requires k < |x.ops| && x.ops[k].Read?
  {
    x.ops[k].val == At(s.log, x.ops[k].loc, x.rv) || FromLater(s, x, k)
  }

  predicate IsLive(x: Tx) {
    !x.ro && !Decided(x) && !Failed(x)
  }

  ghost predicate LiveReads(s: State, t: Tid)
    requires t < |s.txs|
  {
    IsLive(s.txs[t]) ==> forall k :: 0 <= k < |s.txs[t].ops| && FromMemory(s.txs[t], k) ==> LiveRead(s, s.txs[t], k)
  }

  ghost predicate LiveInv(s: State) {
    && (forall l :: MidCopy(s, l))
    && forall t :: 0 <= t < |s.txs| ==> LiveReads(s, t)
  }

  /** A read survives a step after which the transaction has read no more than its old trace and words that
      no newer commit wrote. */
  lemma LiveReadKept(s: State, s': State, t: Tid, x: Tx, x': Tx, k: nat)
    requires Effect(s, s', t) && RwReads(s, x) && x.rv <= s.clock
    requires k < |x.ops| && FromMemory(x, k) && LiveRead(s, x, k)
    requires x'.rv == x.rv && x.ops <= x'.ops
    requires forall w :: w in s.log && w > x.rv && Avoids(x, s.log[w].writes, k) ==> Avoids(x', s.log[w].writes, k)
    ensures LiveRead(s', x', k)
  {
    assert x'.ops[k] == x.ops[k] && RwRead(s, x, k);
    if x.ops[k].val == At(s.log, x.ops[k].loc, x.rv) {
      ValueStable(s, s', t, x.ops[k].loc, x.rv);
    } else {
      var w :| WrittenLater(s, x.ops[k].loc, x.ops[k].val, x.rv, w) && Avoids(x, s.log[w].writes, k);
      assert WrittenLater(s', x'.ops[k].loc, x'.ops[k].val, x'.rv, w) && Avoids(x', s'.log[w].writes, k);
    }
  }

  /** Steps that add no read and check no word. */
  lemma LiveKept(s: State, s': State, t: Tid, u: Tid)
    requires Inv(s) && Effect(s, s', t) && u < |s.txs| && LiveReads(s, u) && u < |s'.txs|
    requires IsLive(s'.txs[u]) ==> IsLive(s.txs[u]) && s'.txs[u].rv == s.txs[u].rv && s.txs[u].ops <= s'.txs[u].ops
    requires forall k :: |s.txs[u].ops| <= k < |s'.txs[u].ops| ==> !s'.txs[u].ops[k].Read?
    requires s'.txs[u].pc.RwCopy? ==> s'.txs[u].pc == s.txs[u].pc
    ensures LiveReads(s', u)
  {
    var x, x' := s.txs[u], s'.txs[u];
    assert TxInv(s, u);
    if IsLive(x') {
      forall k | 0 <= k < |x'.ops| && FromMemory(x', k) ensures LiveRead(s', x', k) {
        assert k < |x.ops| && x'.ops[..k] == x.ops[..k];
        LiveReadKept(s, s', t, x, x', k);
      }
    }
  }

  lemma CheckKeeps(s: State, t: Tid)
    requires Inv(s) && t < |s.txs| && s.txs[t].pc.RwCheck? && LiveReads(s, t) && Effect(s, DoRwCheck(s, t), t)
    ensures LiveReads(DoRwCheck(s, t), t)
  {
    var x := s.txs[t];
    assert TxInv(s, t);
    if IsLive(DoRwCheck(s, t).txs[t]) {
      forall w | w in s.log && w > x.rv ensures x.pc.l !in Locs(s.log[w].writes) { PassesNoNewer(s, x.pc.l, x.rv, w); }
      CheckedRead(s, t);
      CheckPassed(s, DoRwCheck(s, t), t);
    }
  }

  lemma CheckPassed(s: State, s': State, t: Tid)
    requires t < |s.txs| && t < |s'.txs| && LiveReads(s, t) && IsLive(s.txs[t]) && Effect(s, s', t)
    requires RwReads(s, s.txs[t]) && s.txs[t].rv <= s.clock && s.txs[t].pc.RwCheck?
    requires Checked(s.txs[t], s'.txs[t])
    requires forall w :: w in s.log && w > s.txs[t].rv ==> s.txs[t].pc.l !in Locs(s.log[w].writes)
    ensures LiveReads(s', t)
  {
    var x, x' := s.txs[t], s'.txs[t];
    forall w | w in s.log && w > x.rv ensures forall k :: Avoids(x, s.log[w].writes, k) ==> Avoids(x', s.log[w].writes, k) {
      CheckAvoids(x, x', s.log[w].writes);
    }
    forall k | 0 <= k < |x'.ops| && FromMemory(x', k) ensures LiveRead(s', x', k) {
      assert x'.ops[..k] == x.ops[..k];
      LiveReadKept(s, s', t, x, x', k);
    }
  }

  lemma CheckAvoids(x: Tx, x': Tx, ws: seq<Write>)
    requires x.pc.RwCheck? && Checked(x, x') && x.pc.l !in Locs(ws)
    ensures forall k :: Avoids(x, ws, k) ==> Avoids(x', ws, k)
  {
  }

  /** What a passed check adds to the trace comes from the redo log. */
  predicate Checked(x: Tx, x': Tx)
    requires x.pc.RwCheck?
  {
    && x'.rv == x.rv && x.ops <= x'.ops && |x'.ops| <= |x.ops| + 1
    && (|x'.ops| > |x.ops| ==> !FromMemory(x', |x.ops|) && x'.ops[|x.ops|].Read? && x'.ops[|x.ops|].loc == x.pc.l)
    && (x'.pc.RwCopy? ==> x'.pc.l == x.pc.l)
  }

  lemma CheckedRead(s: State, t: Tid)
    requires t < |s.txs| && s.txs[t].pc.RwCheck? && TxInv(s, t) && IsLive(DoRwCheck(s, t).txs[t])
    ensures Checked(s.txs[t], DoRwCheck(s, t).txs[t])
  {
    var x, x' := s.txs[t], DoRwCheck(s, t).txs[t];
    if |x'.ops| > |x.ops| { assert x'.ops[..|x.ops|] == x.ops; }
  }

  lemma CopyKeeps(s: State, t: Tid)
    requires Inv(s) && t < |s.txs| && s.txs[t].pc.RwCopy? && LiveReads(s, t) && MidCopy(s, s.txs[t].pc.l)
    requires Effect(s, DoRwCopy(s, t), t)
    ensures LiveReads(DoRwCopy(s, t), t)
  {
    var s' := DoRwCopy(s, t);
    var x, x' := s.txs[t], s'.txs[t];
    assert TxInv(s, t);
    forall k | 0 <= k < |x'.ops| && FromMemory(x', k) ensures LiveRead(s', x', k) {
      assert x'.ops[..k] == x.ops[..k];
      if k < |x.ops| {
        LiveReadKept(s, s', t, x, x', k);
      } else {
        CopiedValue(s, x.pc.l, x.rv);
        if x'.ops[k].val != At(s.log, x.pc.l, x.rv) {
          var w :| WrittenLater(s, x.pc.l, x'.ops[k].val, x.rv, w);
          assert WrittenLater(s', x'.ops[k].loc, x'.ops[k].val, x'.rv, w) && Avoids(x', s'.log[w].writes, k);
        }
      }
    }
  }

  lemma TauKeeps(s: State, t: Tid)
    requires Inv(s) && Enabled(s, Tau(t)) && LiveReads(s, t) && MidCopyAt(s, t) && Effect(s, DoTau(s, t), t)
    ensures t < |DoTau(s, t).txs| && LiveReads(DoTau(s, t), t)
  {
    assert TxInv(s, t);
    var pc := s.txs[t].pc;
    if pc.RwCheck? {
      CheckKeeps(s, t);
    } else if pc.RwCopy? {
      CopyKeeps(s, t);
    } else if !s.txs[t].ro {
      OtherTau(s, t);
      LiveKept(s, DoTau(s, t), t, t);
    }
  }

  ghost predicate MidCopyAt(s: State, t: Tid)
    requires t < |s.txs|
  {
    s.txs[t].pc.RwCopy? ==> MidCopy(s, s.txs[t].pc.l)
  }

  /** The transaction has read nothing and checked nothing in this step, and was live if it is live now. */
  predicate ReadsNothing(s: State, s': State, t: Tid)
    requires t < |s.txs|
  {
    && t < |s'.txs|
    && s'.txs[t].ops == s.txs[t].ops && s'.txs[t].rv == s.txs[t].rv && !s'.txs[t].pc.RwCopy?
    && (IsLive(s'.txs[t]) ==> IsLive(s.txs[t]))
  }

  lemma OtherTau(s: State, t: Tid)
    requires Enabled(s, Tau(t)) && TxInv(s, t) && !s.txs[t].ro && !s.txs[t].pc.RwCheck? && !s.txs[t].pc.RwCopy?
    ensures ReadsNothing(s, DoTau(s, t), t)
  {
    var pc := s.txs[t].pc;
    if pc.Locking? || pc.TryCas? || pc.Tick? || pc.Validating? {
      EarlyTau(s, t);
    } else {
      LateTau(s, t);
    }
  }

  lemma EarlyTau(s: State, t: Tid)
    requires Enabled(s, Tau(t)) && TxInv(s, t)
    requires var pc := s.txs[t].pc; pc.Locking? || pc.TryCas? || pc.Tick? || pc.Validating?
    ensures ReadsNothing(s, DoTau(s, t), t)
  {
  }

  lemma LateTau(s: State, t: Tid)
    requires Enabled(s, Tau(t)) && TxInv(s, t)
    requires var pc := s.txs[t].pc;
             pc.Publishing? || pc.VersionLoad? || pc.VersionStore? || pc.Unlocking? || pc.UnlockStore?
    ensures ReadsNothing(s, DoTau(s, t), t)
  {
    if s.txs[t].pc.Publishing? || s.txs[t].pc.VersionLoad? || s.txs[t].pc.VersionStore? {
      PublishingTau(s, t);
    } else {
      UnlockingTau(s, t);
    }
  }

  lemma PublishingTau(s: State, t: Tid)
    requires Enabled(s, Tau(t)) && TxInv(s, t)
    requires s.txs[t].pc.Publishing? || s.txs[t].pc.VersionLoad? || s.txs[t].pc.VersionStore?
    ensures ReadsNothing(s, DoTau(s, t), t)
  {
    if s.txs[t].pc.VersionStore? { VersionStoreTau(s, t); }
  }

  lemma VersionStoreTau(s: State, t: Tid)
    requires Enabled(s, Tau(t)) && TxInv(s, t) && s.txs[t].pc.VersionStore?
    ensures ReadsNothing(s, DoTau(s, t), t)
  {
  }

  lemma UnlockingTau(s: State, t: Tid)
    requires Enabled(s, Tau(t)) && TxInv(s, t) && (s.txs[t].pc.Unlocking? || s.txs[t].pc.UnlockStore?)
    ensures ReadsNothing(s, DoTau(s, t), t)
  {
  }

  lemma LiveStep(s: State, a: Action)
    requires Inv(s) && LiveInv(s) && Enabled(s, a)
    ensures LiveInv(Do(s, a))
  {
    var s' := Do(s, a);
    DoOk(s, a);
    forall l ensures MidCopy(s', l) { MidCopyStep(s, a, l); }
    forall u | 0 <= u < |s'.txs| ensures LiveReads(s', u) {
      if u < |s.txs| && u != Mover(s, a) {
        LiveKept(s, s', Mover(s, a), u);
      } else {
        MoverKeeps(s, a);
      }
    }
  }

  lemma MoverKeeps(s: State, a: Action)
    requires Inv(s) && LiveInv(s) && Enabled(s, a) && Effect(s, Do(s, a), Mover(s, a))
    ensures LiveReads(Do(s, a), Mover(s, a))
  {
    match a
    case Begin(_) =>
    case Invoke(t, c) => CallKeepsReads(s, t, c);
    case Tau(t) => TauKeeps(s, t);
  }

  lemma CallKeepsReads(s: State, t: Tid, c: Call)
    requires Inv(s) && Enabled(s, Invoke(t, c)) && LiveReads(s, t) && Effect(s, DoCall(s, t, c), t)
    ensures LiveReads(DoCall(s, t, c), t)
  {
    CallAddsNoRead(s, t, c);
    LiveKept(s, DoCall(s, t, c), t, t);
  }

  lemma CallAddsNoRead(s: State, t: Tid, c: Call)
    requires Enabled(s, Invoke(t, c))
    ensures t < |DoCall(s, t, c).txs|
    ensures var x, x' := s.txs[t], DoCall(s, t, c).txs[t];
            && (IsLive(x') ==> IsLive(x)) && x'.rv == x.rv && x.ops <= x'.ops && !x'.pc.RwCopy?
            && forall k :: |x.ops| <= k < |x'.ops| ==> !x'.ops[k].Read?
  {
  }

  lemma NextLive(s: State, s': State)
    requires Inv(s) && LiveInv(s) && Next(s, s')
    ensures LiveInv(s')
  {
    var a :| Enabled(s, a) && s' == Do(s, a);
    LiveStep(s, a);
  }

  lemma {:induction false} RunLive(run: seq<State>, i: nat)
    requires IsRun(run) && i < |run|
    ensures LiveInv(run[i])
  {
    if i == 0 {
      InitialLive();
    } else {
      RunLive(run, i - 1);
      RunInv(run, i - 1);
      assert StepAt(run, i - 1);
      NextLive(run[i - 1], run[i]);
    }
  }

  lemma InitialLive()
    ensures LiveInv(Initial())
  {
  }
}
