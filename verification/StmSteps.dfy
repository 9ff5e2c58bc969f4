/** Every step of the machine keeps the invariant. */
module StmSteps {
  import opened Options
  import opened SharedMemory
  import opened Stm
  import opened StmInvariant

  /** Everything a step owes besides what `OthersKeep` gives for free. */
  ghost predicate StepOk(s: State, s': State, t: Tid) {
    && Effect(s, s', t)
    && TxInv(s', t)
    && (forall l :: CellInv(s', l))
    && (forall w :: w in s'.log && w !in s.log ==> w > 0 && s'.txs[t].wv == w && Serial(s', w))
    && (t < |s.txs| && Decided(s.txs[t]) ==> Decided(s'.txs[t]) && s'.txs[t].wv == s.txs[t].wv)
    && UniqueVersions(s')
  }

  lemma Assemble(s: State, s': State, t: Tid)
    requires Inv(s) && StepOk(s, s', t)
    ensures Inv(s')
  {
    forall u | 0 <= u < |s'.txs| ensures TxInv(s', u) {
      if u != t { OthersKeep(s, s', t, u); }
    }
    forall w | w in s'.log
      ensures 0 < w <= s'.clock && s'.log[w].tid < |s'.txs| && Decided(s'.txs[s'.log[w].tid])
      ensures s'.txs[s'.log[w].tid].wv == w && Serial(s', w)
    {
      if w in s.log {
        SerialStable(s, s', t, w);
        assert Decided(s.txs[s.log[w].tid]);
      }
    }
  }

  // ---- Steps that leave the shared state alone ----

  predicate SameProgress(x: Tx, x': Tx) {
    && ToPublish(x') == ToPublish(x)
    && ToCopy(x') == ToCopy(x)
    && x'.lockedSet == x.lockedSet
    && x'.wv == x.wv && x'.rv >= x.rv
    && (x.pc.Finished? ==> x' == x)
    && (Decided(x) <==> Decided(x'))
    && (Undecided(x') ==> Undecided(x) && x'.writeSet == x.writeSet)
    && (Decided(x) || x.wv > 0 ==> x'.writeSet == x.writeSet)
    && (Decided(x) ==> x'.ops == x.ops)
    && (Failed(x) ==> Failed(x'))
    && (Undecided(x) ==> Undecided(x') || Settled(x'))
  }

  ghost predicate Private(s: State, s': State, t: Tid) {
    && t < |s.txs| == |s'.txs|
    && s'.clock == s.clock && s'.cells == s.cells && s'.log == s.log
    && s'.txs == s.txs[t := s'.txs[t]]
    && SameProgress(s.txs[t], s'.txs[t])
  }

  lemma PrivateFrame(s: State, s': State, t: Tid)
    requires Inv(s)
    requires Private(s, s', t)
    ensures Effect(s, s', t)
    ensures forall l :: CellInv(s', l)
    ensures UniqueVersions(s')
  {
    assert TxInv(s, t);
    forall l ensures CellInv(s', l) {
      assert CellInv(s, l);
      forall w | w in s'.log && l in Locs(s'.log[w].writes) ensures Published(s', l, w) {
        assert Published(s, l, w);
      }
    }
  }

  /** Reads recorded so far survive a step that only appends to the private logs. */
  lemma RwReadsKeep(s: State, s': State, t: Tid, x: Tx, x': Tx)
    requires Effect(s, s', t) && RwReads(s, x) && x.rv <= s.clock
    requires x'.rv == x.rv && x.ops <= x'.ops && x.readSet <= x'.readSet
    requires Horizon(s, x) <= Horizon(s', x')
    ensures forall k :: 0 <= k < |x.ops| && x'.ops[k].Read? ==> RwRead(s', x', k)
    ensures forall j :: 0 <= j < |x.readSet| ==> Frozen(s'.txs, x'.readSet[j], x'.rv)
  {
    forall j | 0 <= j < |x.readSet| ensures Frozen(s'.txs, x'.readSet[j], x'.rv) {
      assert x'.readSet[j] == x.readSet[j];
      FrozenStable(s, s', t, x.readSet[j], x.rv);
    }
    forall k | 0 <= k < |x.ops| && x'.ops[k].Read? ensures RwRead(s', x', k) {
      assert x'.ops[k] == x.ops[k];
      assert x'.ops[..k + 1] == x.ops[..k + 1];
      RwReadStable(s, s', t, x, x', k);
    }
  }

  lemma StoresOfAppend(ops: seq<Op>, o: Op)
    ensures StoresOf(ops + [o]) == if o.Store? then StoresOf(ops) + [Write(o.loc, o.val)] else StoresOf(ops)
  {
    assert (ops + [o])[..|ops|] == ops;
  }

  lemma BeginOk(s: State, ro: bool)
    requires Inv(s)
    ensures StepOk(s, Do(s, Begin(ro)), |s.txs|)
  {
    var s' := Do(s, Begin(ro));
    var t := |s.txs|;
    forall l ensures CellInv(s', l) {
      assert CellInv(s, l);
      forall w | w in s'.log && l in Locs(s'.log[w].writes) ensures Published(s', l, w) {
        assert Published(s, l, w);
      }
    }
    forall l ensures s'.cells[l].owner != Some(t) {
      assert CellInv(s, l);
    }
    assert TxInv(s', t);
  }

  /** A client call that only appends to the private logs. */
  lemma LoggedOk(s: State, s': State, t: Tid, o: Op)
    requires Inv(s) && t < |s.txs| && s.txs[t].pc.Idle? && !s.txs[t].ro
    requires s'.clock == s.clock && s'.cells == s.cells && s'.log == s.log && !o.Read?
    requires s'.txs == s.txs[t := s.txs[t].(
                         writeSet := if o.Store? then s.txs[t].writeSet + [Write(o.loc, o.val)] else s.txs[t].writeSet,
                         ops := s.txs[t].ops + [o])]
    ensures StepOk(s, s', t)
  {
    var x, x' := s.txs[t], s'.txs[t];
    assert TxInv(s, t);
    PrivateFrame(s, s', t);
    StoresOfAppend(x.ops, o);
    RwReadsKeep(s, s', t, x, x');
  }

  /** A private step that leaves the logs of the transaction alone too. */
  lemma MoveOk(s: State, s': State, t: Tid)
    requires Inv(s) && Private(s, s', t)
    requires Shape(s'.txs[t], s.clock)
    requires s'.txs[t] == s.txs[t].(pc := s'.txs[t].pc)
    requires s'.txs[t].pc.UnlockStore? ==>
               s'.txs[t].pc.seen == s.cells[s.txs[t].writeSet[s'.txs[t].pc.i].loc].version
    requires !s'.txs[t].pc.RoCheck?
    requires s'.txs[t].pc.RoValidate? ==> s'.txs[t].pc.i == 0
    requires !s'.txs[t].pc.Validating? && !s'.txs[t].pc.RwCopy?
    ensures StepOk(s, s', t)
  {
    var x, x' := s.txs[t], s'.txs[t];
    assert TxInv(s, t);
    PrivateFrame(s, s', t);
    if !x'.ro && !Failed(x') && !Decided(x') { RwReadsKeep(s, s', t, x, x'); }
    if x'.ro && !Failed(x') {
      forall k | 0 <= k < |x'.ops| ensures RoRead(s', x', k) { RoReadStable(s, s', t, x, x', k); }
    }
  }

  lemma CallOk(s: State, t: Tid, c: Call)
    requires Inv(s) && Enabled(s, Invoke(t, c))
    ensures StepOk(s, DoCall(s, t, c), t)
  {
    var s' := DoCall(s, t, c);
    var x := s.txs[t];
    assert TxInv(s, t);
    assert x.writeSet[..0] == [];
    match c
    case ReadWord(_) => MoveOk(s, s', t);
    case WriteWord(l, v) => LoggedOk(s, s', t, Store(l, v));
    case AllocSegment => LoggedOk(s, s', t, Alloc(s.nseg));
    case FreeSegment(seg) => LoggedOk(s, s', t, Free(seg));
    case End => MoveOk(s, s', t);
  }

  // ---- What the lock word of a cell tells its reader ----

  lemma UnlockedFrozen(s: State, l: Loc, v: int)
    requires Inv(s) && !s.cells[l].locked
    ensures Frozen(s.txs, l, v)
  {
    assert CellInv(s, l);
    forall u | 0 <= u < |s.txs| && Undecided(s.txs[u]) && s.txs[u].wv <= v
      ensures l !in Locs(s.txs[u].writeSet)
    {
      assert TxInv(s, u);
    }
  }

  /** Only the owner of the lock can still owe a publication of the word. */
  lemma OweOnlyOwned(s: State, l: Loc, u: Tid)
    requires Inv(s) && u < |s.txs| && l in Locs(ToPublish(s.txs[u]))
    ensures s.cells[l].owner == Some(u)
  {
    var x := s.txs[u];
    assert TxInv(s, u);
    LocsSplit(x.writeSet, x.pc.i);
  }

  lemma OldQuiet(s: State, l: Loc, rv: nat)
    requires Inv(s) && s.cells[l].version <= rv
    requires s.cells[l].owner.Some? ==>
               s.cells[l].owner.value < |s.txs| && ToPublish(s.txs[s.cells[l].owner.value]) == []
    ensures Quiet(s.log, l, rv, s.clock)
  {
    assert CellInv(s, l);
    forall w | w in s.log && rv < w <= s.clock ensures l !in Locs(s.log[w].writes) {
      if l in Locs(s.log[w].writes) {
        assert Published(s, l, w);
        OweOnlyOwned(s, l, s.log[w].tid);
      }
    }
  }

  /** What a copy tells: `Copied` holds of the value in memory. */
  lemma CopyOk(s: State, l: Loc, rv: nat)
    requires Inv(s) && rv <= s.clock
    ensures Copied(s, l, s.cells[l].val, OldWriter(s, l, rv), rv)
  {
    assert CellInv(s, l);
    match OldWriter(s, l, rv)
    case None => CleanCopy(s, l, rv);
    case Some(u) => CopyUnder(s, l, u, rv);
  }

  lemma CleanCopy(s: State, l: Loc, rv: nat)
    requires Inv(s) && rv <= s.clock && OldWriter(s, l, rv) == None
    ensures Frozen(s.txs, l, rv)
    ensures Quiet(s.log, l, rv, s.clock) ==> s.cells[l].val == At(s.log, l, rv)
  {
    forall u | 0 <= u < |s.txs| && Undecided(s.txs[u]) && s.txs[u].wv <= rv
      ensures l !in Locs(s.txs[u].writeSet)
    {
      assert TxInv(s, u);
    }
    assert CellInv(s, l);
    if Quiet(s.log, l, rv, s.clock) {
      AtQuiet(s.log, l, rv, s.clock);
      if s.cells[l].owner.Some? {
        var u := s.cells[l].owner.value;
        assert TxInv(s, u);
        assert Decided(s.txs[u]) ==> !HoldsAll(s.txs[u]);
      }
    }
  }

  lemma CopyUnder(s: State, l: Loc, u: Tid, rv: nat)
    requires Inv(s) && rv <= s.clock && OldWriter(s, l, rv) == Some(u)
    ensures Copied(s, l, s.cells[l].val, Some(u), rv)
  {
    assert CellInv(s, l) && TxInv(s, u);
    forall w | 0 <= w < |s.txs| && w != u && Undecided(s.txs[w]) && s.txs[w].wv <= rv
      ensures l !in Locs(s.txs[w].writeSet)
    {
      assert TxInv(s, w);
    }
    LastHolder(s, l, u);
    AtQuiet(s.log, l, s.txs[u].wv, s.clock);
  }

  /** While `u` holds the word, no commit newer than `u` has written it. */
  lemma LastHolder(s: State, l: Loc, u: Tid)
    requires Inv(s) && s.cells[l].owner == Some(u) && u < |s.txs| && s.txs[u].wv > 0
    ensures Quiet(s.log, l, s.txs[u].wv, s.clock)
  {
    assert CellInv(s, l) && TxInv(s, u);
    forall w | w in s.log && s.txs[u].wv < w <= s.clock ensures l !in Locs(s.log[w].writes) {
      if l in Locs(s.log[w].writes) {
        assert Published(s, l, w);
        OweOnlyOwned(s, l, s.log[w].tid);
      }
    }
  }

  /** A copy whose check passes has its verdict. */
  lemma CheckPassed(s: State, l: Loc, v: Val, under: Option<Tid>, rv: nat)
    requires Inv(s) && rv <= s.clock && UnlockedAndOld(s, l, rv) && Copied(s, l, v, under, rv)
    ensures CopyVerdict(s, l, v, under, rv)
  {
    assert CellInv(s, l);
    match under
    case None => OldQuiet(s, l, rv);
    case Some(u) =>
      var x := s.txs[u];
      assert TxInv(s, u);
      AtQuiet(s.log, l, x.wv, rv);
      if Decided(x) { OverlayDefault(x.writeSet, l, At(s.log, l, x.wv - 1), 0); }
  }

  // ---- Reads ----

  lemma RwCheckOk(s: State, t: Tid)
    requires Inv(s) && t < |s.txs| && s.txs[t].pc.RwCheck?
    ensures StepOk(s, DoRwCheck(s, t), t)
  {
    var s' := DoRwCheck(s, t);
    var x, x' := s.txs[t], s'.txs[t];
    var l := x.pc.l;
    assert TxInv(s, t);
    if !UnlockedAndOld(s, l, x.rv) {
      MoveOk(s, s', t);
    } else {
      PrivateFrame(s, s', t);
      UnlockedFrozen(s, l, x.rv);
      FrozenStable(s, s', t, l, x.rv);
      assert CellInv(s, l);
      RwCheckedTx(s, s', t);
    }
  }

  lemma RwCheckedTx(s: State, s': State, t: Tid)
    requires t < |s.txs| && TxInv(s, t) && Effect(s, s', t) && s.txs[t].pc.RwCheck?
    requires UnlockedAndOld(s, s.txs[t].pc.l, s.txs[t].rv) && s' == DoRwCheck(s, t)
    requires Frozen(s'.txs, s.txs[t].pc.l, s.txs[t].rv) && s.cells[s.txs[t].pc.l].owner == None
    ensures TxInv(s', t)
  {
    var x, x' := s.txs[t], s'.txs[t];
    RwCheckedReads(s, s', t, x, x');
    if x.pc.l in Locs(x.writeSet) { StoresOfAppend(x.ops, Read(x.pc.l, Overlay(x.writeSet, x.pc.l, 0), None)); }
  }

  /** The word checked joins the read set; a word of the redo log is read from there. */
  lemma RwCheckedReads(s: State, s': State, t: Tid, x: Tx, x': Tx)
    requires Effect(s, s', t) && RwReads(s, x) && x.rv <= s.clock && x.pc.RwCheck? && x.writeSet == StoresOf(x.ops)
    requires x'.rv == x.rv && x'.wv == x.wv && x'.readSet == x.readSet + [x.pc.l] && Frozen(s'.txs, x.pc.l, x.rv)
    requires if x.pc.l in Locs(x.writeSet)
             then x'.pc == Idle && x'.ops == x.ops + [Read(x.pc.l, Overlay(x.writeSet, x.pc.l, 0), None)]
             else x'.pc == RwCopy(x.pc.l) && x'.ops == x.ops
    ensures RwReads(s', x')
  {
    RwReadsKeep(s, s', t, x, x');
    assert x'.readSet[|x.readSet|] == x.pc.l;
    if x.pc.l in Locs(x.writeSet) { assert x'.ops[..|x.ops|] == x.ops; }
  }

  lemma RwCopyOk(s: State, t: Tid)
    requires Inv(s) && t < |s.txs| && s.txs[t].pc.RwCopy?
    ensures StepOk(s, DoRwCopy(s, t), t)
  {
    var s' := DoRwCopy(s, t);
    var x, x' := s.txs[t], s'.txs[t];
    assert TxInv(s, t);
    PrivateFrame(s, s', t);
    StoresOfAppend(x.ops, x'.ops[|x.ops|]);
    RwReadsKeep(s, s', t, x, x');
    CleanCopy(s, x.pc.l, x.rv);
    assert x'.ops[..|x.ops|] == x.ops;
  }

  lemma RoCopyOk(s: State, t: Tid, tries: nat)
    requires Inv(s) && t < |s.txs| && (s.txs[t].pc.RoCopy? || s.txs[t].pc.RoRecopy?) && tries <= RO_RETRIES
    ensures StepOk(s, DoRoCopy(s, t, tries), t)
  {
    var s' := DoRoCopy(s, t, tries);
    var x, x' := s.txs[t], s'.txs[t];
    assert TxInv(s, t);
    if x'.pc.Finished? {
      MoveOk(s, s', t);
    } else {
      PrivateFrame(s, s', t);
      forall k | 0 <= k < |x'.ops| ensures RoRead(s', x', k) { RoReadStable(s, s', t, x, x', k); }
      CopyOk(s, x.pc.l, x.rv);
      CopiedStable(s, s', t, x.pc.l, x'.pc.x, x'.pc.under, x.rv);
    }
  }

  lemma RoRecopyOk(s: State, t: Tid)
    requires Inv(s) && t < |s.txs| && s.txs[t].pc.RoRecopy?
    ensures StepOk(s, DoRoCopy(s, t, s.txs[t].pc.tries + 1), t)
  {
    assert TxInv(s, t);
    RoCopyOk(s, t, s.txs[t].pc.tries + 1);
  }

  lemma RoCheckOk(s: State, t: Tid)
    requires Inv(s) && t < |s.txs| && s.txs[t].pc.RoCheck?
    ensures StepOk(s, DoRoCheck(s, t), t)
  {
    var s' := DoRoCheck(s, t);
    var x, x' := s.txs[t], s'.txs[t];
    assert TxInv(s, t);
    var l := x.pc.l;
    if !UnlockedAndOld(s, l, x.rv) {
      MoveOk(s, s', t);
    } else {
      PrivateFrame(s, s', t);
      assert CellInv(s, l);
      UnlockedFrozen(s, l, x.rv);
      CheckPassed(s, l, x.pc.x, x.pc.under, x.rv);
      RoCheckedTx(s, s', t, l);
    }
  }

  lemma RoCheckedTx(s: State, s': State, t: Tid, l: Loc)
    requires t < |s.txs| && TxInv(s, t) && Effect(s, s', t) && s.txs[t].pc.RoCheck? && l == s.txs[t].pc.l
    requires s' == DoRoCheck(s, t) && UnlockedAndOld(s, l, s.txs[t].rv) && s.cells[l].owner == None
    requires Frozen(s.txs, l, s.txs[t].rv)
    requires CopyVerdict(s, l, s.txs[t].pc.x, s.txs[t].pc.under, s.txs[t].rv)
    ensures TxInv(s', t)
  {
    var x, x' := s.txs[t], s'.txs[t];
    StoresOfAppend(x.ops, x'.ops[|x.ops|]);
    forall k | 0 <= k < |x'.ops| ensures RoRead(s', x', k) {
      if k < |x.ops| {
        RoReadStable(s, s', t, x, x', k);
      } else {
        FrozenStable(s, s', t, l, x.rv);
        VerdictStable(s, s', t, l, x.pc.x, x.pc.under, x.rv);
      }
    }
  }

  lemma RoValidateOk(s: State, t: Tid)
    requires Inv(s) && t < |s.txs| && s.txs[t].pc.RoValidate?
    ensures StepOk(s, DoRoValidate(s, t), t)
  {
    var s' := DoRoValidate(s, t);
    var x, x' := s.txs[t], s'.txs[t];
    assert TxInv(s, t);
    if x'.pc.Finished? {
      MoveOk(s, s', t);
    } else {
      PrivateFrame(s, s', t);
      if x.pc.i >= |x.readSet| {
        forall k | 0 <= k < |x'.ops| ensures RoRead(s', x', k) { ExtensionOk(s, s', t, x, x', k); }
      } else {
        var l := x.readSet[x.pc.i];
        assert CellInv(s, l);
        UnlockedFrozen(s, l, x.pc.now);
        OldQuiet(s, l, x.rv);
        RoValidatedTx(s, s', t);
      }
    }
  }

  lemma RoValidatedTx(s: State, s': State, t: Tid)
    requires t < |s.txs| && TxInv(s, t) && Effect(s, s', t)
    requires s.txs[t].pc.RoValidate? && s.txs[t].pc.i < |s.txs[t].readSet|
    requires s' == DoRoValidate(s, t) && s'.txs[t].pc.RoValidate?
    requires Revalidated(s, s.txs[t].readSet[s.txs[t].pc.i], s.txs[t].rv, s.txs[t].pc.now)
    ensures TxInv(s', t)
  {
    var x, x' := s.txs[t], s'.txs[t];
    forall k | 0 <= k < |x'.ops| ensures RoRead(s', x', k) { RoReadStable(s, s', t, x, x', k); }
    forall j | 0 <= j < x'.pc.i && j < |x.readSet| ensures Revalidated(s', x'.readSet[j], x.rv, x.pc.now) {
      RevalidatedStable(s, s', t, x.readSet[j], x.rv, x.pc.now);
    }
  }

  /** Timestamp extension: a read rechecked after the clock load is also a read at the new version. */
  lemma ExtensionOk(s: State, s': State, t: Tid, x: Tx, x': Tx, k: nat)
    requires Effect(s, s', t) && Shape(x, s.clock) && RoReads(s, x) && k < |x.ops|
    requires x.pc.RoValidate? && x.pc.i >= |x.readSet|
    requires x'.ops == x.ops && x'.readSet == x.readSet && x'.rv == x.pc.now
    ensures RoRead(s', x', k)
  {
    var l := x.readSet[k];
    assert RoRead(s, x, k) && Revalidated(s, l, x.rv, x.pc.now);
    AtQuiet(s.log, l, x.rv, x.pc.now);
    FrozenStable(s, s', t, l, x.pc.now);
    VerdictStable(s, s', t, l, x.ops[k].val, x.ops[k].under, x.pc.now);
  }

  // ---- Commit of a read-write transaction ----

  lemma LockingOk(s: State, t: Tid)
    requires Inv(s) && t < |s.txs| && s.txs[t].pc.Locking?
    ensures StepOk(s, DoLocking(s, t), t)
  {
    var s' := DoLocking(s, t);
    assert TxInv(s, t);
    LockingShape(s.txs[t], s.clock, s'.txs[t].pc);
    MoveOk(s, s', t);
  }

  lemma LockingShape(x: Tx, clock: nat, pc: Pc)
    requires Shape(x, clock) && x.pc.Locking?
    requires
      var i := x.pc.i;
      if i >= |x.writeSet| then pc == Tick
      else if x.writeSet[i].loc in x.lockedSet then pc == Locking(i + 1)
      else pc.TryCas? && pc.i == i
    ensures Shape(x.(pc := pc), clock) && SameProgress(x, x.(pc := pc))
  {
    if x.pc.i < |x.writeSet| { LocsPrefix(x.writeSet, x.pc.i); } else { assert x.writeSet[..x.pc.i] == x.writeSet; }
  }

  lemma UnlockingOk(s: State, t: Tid)
    requires Inv(s) && t < |s.txs| && s.txs[t].pc.Unlocking?
    ensures StepOk(s, DoUnlocking(s, t), t)
  {
    var s' := DoUnlocking(s, t);
    var x, x' := s.txs[t], s'.txs[t];
    assert TxInv(s, t);
    UnlockingShape(x, s.clock, x'.pc);
    MoveOk(s, s', t);
  }

  lemma UnlockingShape(x: Tx, clock: nat, pc: Pc)
    requires Shape(x, clock) && x.pc.Unlocking?
    requires
      var Unlocking(i, ok) := x.pc;
      if i >= |x.writeSet| then pc == Finished(ok)
      else if x.writeSet[i].loc in x.lockedSet then pc.UnlockStore? && pc.i == i && pc.ok == ok
      else pc == Unlocking(i + 1, ok)
    ensures Shape(x.(pc := pc), clock) && SameProgress(x, x.(pc := pc))
  {
    var i := x.pc.i;
    if i < |x.writeSet| {
      LocsPrefix(x.writeSet, i);
    } else {
      assert x.writeSet[..i] == x.writeSet;
    }
  }

  /** A word that step `t` neither changes nor comes closer to publishing. */
  lemma CellKeep(s: State, s': State, t: Tid, l: Loc)
    requires Inv(s) && Effect(s, s', t) && t < |s.txs|
    requires s'.cells[l] == s.cells[l] && s'.log == s.log && s'.clock <= s.clock + 1
    requires l in s'.txs[t].lockedSet <==> l in s.txs[t].lockedSet
    requires l in Locs(ToPublish(s.txs[t])) ==> l in Locs(ToPublish(s'.txs[t]))
    requires s.cells[l].owner == Some(t) ==>
               Overlay(ToCopy(s'.txs[t]), l, s.cells[l].val) == Overlay(ToCopy(s.txs[t]), l, s.cells[l].val)
    ensures CellInv(s', l)
  {
    assert CellInv(s, l);
    AtQuiet(s.log, l, s.clock, s'.clock);
    forall w | w in s'.log && l in Locs(s'.log[w].writes) ensures Published(s', l, w) {
      assert Published(s, l, w);
    }
  }

  lemma TryCasOk(s: State, t: Tid)
    requires Inv(s) && t < |s.txs| && s.txs[t].pc.TryCas?
    ensures StepOk(s, DoTryCas(s, t), t)
  {
    var s' := DoTryCas(s, t);
    assert TxInv(s, t);
    if s'.txs[t].pc.Unlocking? {
      TryCasLost(s.txs[t], s.clock);
      MoveOk(s, s', t);
    } else {
      TryCasWon(s, s', t, s.txs[t].writeSet[s.txs[t].pc.i].loc);
    }
  }

  lemma TryCasWon(s: State, s': State, t: Tid, l0: Loc)
    requires Inv(s) && t < |s.txs| && TxInv(s, t) && s.txs[t].pc.TryCas? && l0 == s.txs[t].writeSet[s.txs[t].pc.i].loc
    requires s' == DoTryCas(s, t) && s'.txs[t].pc.Locking? && !s.cells[l0].locked
    ensures StepOk(s, s', t)
  {
    assert CellInv(s, l0);
    TryCasTx(s, s', t, l0);
    TryCasCells(s, s', t, l0);
    OneWordStep(s, s', t);
  }

  lemma TryCasCells(s: State, s': State, t: Tid, l0: Loc)
    requires Inv(s) && Effect(s, s', t) && t < |s.txs| && !s.cells[l0].locked
    requires s'.cells == s.cells[l0 := s.cells[l0].(locked := true, owner := Some(t))]
    requires s'.log == s.log && s'.clock == s.clock && s'.txs[t].lockedSet == s.txs[t].lockedSet + {l0}
    requires ToPublish(s.txs[t]) == [] == ToCopy(s'.txs[t]) && ToCopy(s.txs[t]) == []
    ensures forall l :: CellInv(s', l)
  {
    forall l ensures CellInv(s', l) {
      if l != l0 { CellKeep(s, s', t, l); } else { LockedCell(s, s', t, l); }
    }
  }

  lemma TryCasTx(s: State, s': State, t: Tid, l0: Loc)
    requires t < |s.txs| && TxInv(s, t) && s.txs[t].pc.TryCas? && l0 == s.txs[t].writeSet[s.txs[t].pc.i].loc
    requires CellInv(s, l0) && !s.cells[l0].locked && s' == DoTryCas(s, t) && s'.txs[t].pc.Locking?
    ensures Effect(s, s', t) && TxInv(s', t) && !Decided(s.txs[t])
    ensures ToPublish(s'.txs[t]) == ToPublish(s.txs[t]) == ToCopy(s'.txs[t]) == ToCopy(s.txs[t]) == []
  {
    var x, x' := s.txs[t], s'.txs[t];
    TryCasShape(x, x', s.clock, l0);
    RwReadsKeep(s, s', t, x, x');
  }

  lemma TryCasLost(x: Tx, clock: nat)
    requires Shape(x, clock) && x.pc.TryCas?
    ensures Shape(x.(pc := Unlocking(0, false)), clock) && SameProgress(x, x.(pc := Unlocking(0, false)))
  {
    LocsPrefix(x.writeSet, x.pc.i);
    assert x.writeSet[..0] == [];
  }

  lemma TryCasShape(x: Tx, x': Tx, clock: nat, l0: Loc)
    requires Shape(x, clock) && x.pc.TryCas? && l0 == x.writeSet[x.pc.i].loc
    requires x' == x.(lockedSet := x.lockedSet + {l0}, pc := Locking(x.pc.i + 1))
    ensures Shape(x', clock) && ToPublish(x') == ToPublish(x) == ToCopy(x') == ToCopy(x) == []
    ensures !Decided(x') && !Undecided(x') && !Decided(x)
  {
    LocsPrefix(x.writeSet, x.pc.i);
  }

  lemma LockedCell(s: State, s': State, t: Tid, l: Loc)
    requires Inv(s) && Effect(s, s', t) && t < |s.txs|
    requires !s.cells[l].locked && s'.cells[l] == s.cells[l].(locked := true, owner := Some(t))
    requires l in s'.txs[t].lockedSet && ToCopy(s'.txs[t]) == [] == ToPublish(s.txs[t])
    requires s'.log == s.log && s'.clock == s.clock
    ensures CellInv(s', l)
  {
    assert CellInv(s, l);
    forall w | w in s'.log && l in Locs(s'.log[w].writes) ensures Published(s', l, w) {
      assert Published(s, l, w);
    }
  }

  /** Validation succeeded: the commit enters the history and explains its reads. */
  lemma DecideOk(s: State, s': State, t: Tid)
    requires Inv(s) && t < |s.txs| == |s'.txs|
    requires (s.txs[t].pc.Tick? && s'.clock == s.clock + 1 == s'.txs[t].wv)
          || (s.txs[t].pc.Validating? && s'.clock == s.clock && s'.txs[t].wv == s.txs[t].wv)
    requires s'.txs == s.txs[t := s.txs[t].(wv := s'.txs[t].wv, pc := Publishing(0))]
    requires s'.cells == s.cells
    requires s'.txs[t].wv > 0 && s'.log == s.log[s'.txs[t].wv := Commit(t, s.txs[t].writeSet, s.txs[t].ops)]
    requires forall l :: l in s.txs[t].readSet ==> Revalidated(s, l, s.txs[t].rv, s'.txs[t].wv - 1)
    ensures StepOk(s, s', t)
  {
    assert TxInv(s, t);
    DecideEffect(s, s', t);
    DecidedTx(s, s', t);
    DecidedReads(s, s', t);
    forall l ensures CellInv(s', l) {
      assert CellInv(s, l);
      if l in s.txs[t].lockedSet { OldQuiet(s, l, s.cells[l].version); }
      DecidedCell(s, s', t, l);
    }
  }

  lemma DecideEffect(s: State, s': State, t: Tid)
    requires Inv(s) && t < |s.txs| == |s'.txs|
    requires (s.txs[t].pc.Tick? && s'.clock == s.clock + 1 == s'.txs[t].wv)
          || (s.txs[t].pc.Validating? && s'.clock == s.clock && s'.txs[t].wv == s.txs[t].wv)
    requires s'.txs == s.txs[t := s.txs[t].(wv := s'.txs[t].wv, pc := Publishing(0))]
    requires s'.cells == s.cells
    requires s'.txs[t].wv > 0 && s'.log == s.log[s'.txs[t].wv := Commit(t, s.txs[t].writeSet, s.txs[t].ops)]
    ensures s'.txs[t].wv !in s.log
    ensures Effect(s, s', t) && UniqueVersions(s')
  {
    DecideFresh(s, s', t);
    assert TxInv(s, t);
    var x, x' := s.txs[t], s'.txs[t];
    assert Locs(x.writeSet) == x.lockedSet && Onward(x, x', s.clock) && Decided(x') && !Undecided(x');
  }

  /** The write version of a commit that is decided now belongs to nobody else. */
  lemma DecideFresh(s: State, s': State, t: Tid)
    requires Inv(s) && t < |s.txs| == |s'.txs|
    requires (s.txs[t].pc.Tick? && s'.txs[t].wv == s.clock + 1) || (s.txs[t].pc.Validating? && s'.txs[t].wv == s.txs[t].wv)
    requires s'.txs == s.txs[t := s'.txs[t]] && s'.txs[t].wv > 0
    ensures s'.txs[t].wv !in s.log && UniqueVersions(s')
  {
    assert TxInv(s, t);
    forall u | 0 <= u < |s.txs| && u != t ensures s.txs[u].wv != s'.txs[t].wv {
      assert TxInv(s, u);
    }
  }

  lemma DecidedTx(s: State, s': State, t: Tid)
    requires Inv(s) && t < |s.txs| == |s'.txs| && (s.txs[t].pc.Tick? || s.txs[t].pc.Validating?)
    requires s'.txs[t] == s.txs[t].(wv := s'.txs[t].wv, pc := Publishing(0))
    requires s'.cells == s.cells && s.clock <= s'.clock && s.txs[t].rv < s'.txs[t].wv <= s'.clock
    requires s.txs[t].wv == s'.txs[t].wv || s'.txs[t].wv > s.clock
    requires s'.txs[t].wv > 0 && s'.log == s.log[s'.txs[t].wv := Commit(t, s.txs[t].writeSet, s.txs[t].ops)]
    ensures TxInv(s', t)
    ensures ToPublish(s'.txs[t]) == ToCopy(s'.txs[t]) == s.txs[t].writeSet
  {
    assert TxInv(s, t);
    var x' := s'.txs[t];
    assert x'.writeSet[0..] == x'.writeSet;
    forall l | l in x'.lockedSet ensures s'.cells[l].version <= x'.wv {
      assert CellInv(s, l);
    }
  }

  lemma DecidedReads(s: State, s': State, t: Tid)
    requires t < |s.txs| && TxInv(s, t) && RwReads(s, s.txs[t]) && Effect(s, s', t)
    requires s'.txs[t].wv in s'.log && s'.log[s'.txs[t].wv] == Commit(t, s.txs[t].writeSet, s.txs[t].ops)
    requires s.txs[t].rv < s'.txs[t].wv <= s.clock + 1
    requires s'.txs[t].wv == if s.txs[t].wv > 0 then s.txs[t].wv else s.clock + 1
    requires forall l :: l in s.txs[t].readSet ==> Revalidated(s, l, s.txs[t].rv, s'.txs[t].wv - 1)
    ensures Serial(s', s'.txs[t].wv)
  {
    var x := s.txs[t];
    forall k | 0 <= k < |x.ops| && x.ops[k].Read? ensures SerialRead(s', s'.txs[t].wv, k) {
      assert RwRead(s, x, k);
      DecidedRead(s, s', t, k);
    }
  }

  lemma DecidedRead(s: State, s': State, t: Tid, k: nat)
    requires Effect(s, s', t) && t < |s.txs| && Shape(s.txs[t], s.clock)
    requires s'.txs[t].wv in s'.log && s'.log[s'.txs[t].wv].ops == s.txs[t].ops
    requires s.txs[t].rv < s'.txs[t].wv <= s.clock + 1
    requires k < |s.txs[t].ops| && s.txs[t].ops[k].Read? && RwRead(s, s.txs[t], k)
    requires s'.txs[t].wv == if s.txs[t].wv > 0 then s.txs[t].wv else s.clock + 1
    requires forall l :: l in s.txs[t].readSet ==> Revalidated(s, l, s.txs[t].rv, s'.txs[t].wv - 1)
    ensures SerialRead(s', s'.txs[t].wv, k)
  {
    var x, w := s.txs[t], s'.txs[t].wv;
    var l := x.ops[k].loc;
    var before := StoresOf(x.ops[..k]);
    OverlayDefault(before, l, At(s'.log, l, w - 1), 0);
    if l !in Locs(before) {
      assert Revalidated(s, l, x.rv, w - 1);
      ValueStable(s, s', t, l, w - 1);
      FrozenStable(s, s', t, l, w - 1);
      AtQuiet(s.log, l, x.rv, w - 1);
    }
  }

  lemma DecidedCell(s: State, s': State, t: Tid, l: Loc)
    requires CellInv(s, l) && Effect(s, s', t) && t < |s.txs| && TxInv(s, t)
    requires Quiet(s.log, l, s.clock, s'.clock)
    requires l in s.txs[t].lockedSet ==> Quiet(s.log, l, s.cells[l].version, s'.clock) && s.cells[l].version < s'.txs[t].wv
    requires s'.txs[t] == s.txs[t].(wv := s'.txs[t].wv, pc := Publishing(0))
    requires s'.cells == s.cells && !Decided(s.txs[t]) && ToPublish(s.txs[t]) == ToCopy(s.txs[t]) == []
    requires ToPublish(s'.txs[t]) == ToCopy(s'.txs[t]) == s.txs[t].writeSet
    requires s'.clock <= s.clock + 1
    requires var w := s'.txs[t].wv;
             && 0 < w <= s'.clock && w !in s.log
             && (w > s.clock || w == s.txs[t].wv)
             && s'.log == s.log[w := Commit(t, s.txs[t].writeSet, s.txs[t].ops)]
    requires Locs(s.txs[t].writeSet) == s.txs[t].lockedSet
    ensures CellInv(s', l)
  {
    var w := s'.txs[t].wv;
    var ws := s.txs[t].writeSet;
    forall v | v in s'.log && l in Locs(s'.log[v].writes) ensures Published(s', l, v) {
      if v != w { assert Published(s, l, v); }
    }
    AtQuiet(s.log, l, s.clock, s'.clock);
    if l in Locs(ws) {
      AtQuiet(s.log, l, w - 1, s'.clock);
      AtSame(s.log, s'.log, l, w - 1);
      assert Quiet(s'.log, l, w, s'.clock);
      AtQuiet(s'.log, l, w, s'.clock);
    } else {
      AtSame(s.log, s'.log, l, s'.clock);
    }
  }

  lemma TickOk(s: State, t: Tid)
    requires Inv(s) && t < |s.txs| && s.txs[t].pc.Tick?
    ensures StepOk(s, DoTick(s, t), t)
  {
    var s' := DoTick(s, t);
    var x, x' := s.txs[t], s'.txs[t];
    assert TxInv(s, t);
    if x'.pc.Publishing? {
      DecideOk(s, s', t);
    } else {
      forall u | 0 <= u < |s.txs| && u != t ensures s.txs[u].wv != x'.wv { assert TxInv(s, u); }
      forall l ensures s.cells[l].version <= s.clock { assert CellInv(s, l); }
      TickTx(s, s', t);
      forall l ensures CellInv(s', l) { CellKeep(s, s', t, l); }
    }
  }

  lemma TickTx(s: State, s': State, t: Tid)
    requires t < |s.txs| && TxInv(s, t) && s.txs[t].pc.Tick? && s.clock + 1 !in s.log
    requires s' == s.(clock := s.clock + 1,
                      txs := s.txs[t := s.txs[t].(wv := s.clock + 1, pc := Validating(0))])
    requires forall l :: s.cells[l].version <= s.clock
    ensures Effect(s, s', t) && TxInv(s', t)
  {
    RwReadsKeep(s, s', t, s.txs[t], s'.txs[t]);
  }

  lemma ValidatingOk(s: State, t: Tid)
    requires Inv(s) && t < |s.txs| && s.txs[t].pc.Validating?
    ensures StepOk(s, DoValidating(s, t), t)
  {
    var s' := DoValidating(s, t);
    var x, x' := s.txs[t], s'.txs[t];
    assert TxInv(s, t);
    if x'.pc.Publishing? {
      forall l | l in x.readSet ensures Revalidated(s, l, x.rv, x.wv - 1) {
        var j :| 0 <= j < |x.readSet| && x.readSet[j] == l;
        assert Revalidated(s, x.readSet[j], x.rv, x.wv - 1);
      }
      DecideOk(s, s', t);
    } else if x'.pc.Unlocking? {
      assert x.writeSet[..0] == [];
      MoveOk(s, s', t);
    } else {
      PrivateFrame(s, s', t);
      RecheckPassed(s, x, x.readSet[x.pc.i], t);
      ValidatedTx(s, s', t);
    }
  }

  lemma ValidatedTx(s: State, s': State, t: Tid)
    requires t < |s.txs| && TxInv(s, t) && Effect(s, s', t)
    requires s.txs[t].pc.Validating? && s.txs[t].pc.i < |s.txs[t].readSet|
    requires s'.txs[t] == s.txs[t].(pc := Validating(s.txs[t].pc.i + 1))
    requires s'.cells == s.cells && s'.clock == s.clock && s'.log == s.log
    requires Revalidated(s, s.txs[t].readSet[s.txs[t].pc.i], s.txs[t].rv, s.txs[t].wv - 1)
    ensures TxInv(s', t)
  {
    var x, x' := s.txs[t], s'.txs[t];
    RwReadsKeep(s, s', t, x, x');
    forall j | 0 <= j < x'.pc.i && j < |x.readSet| ensures Revalidated(s', x'.readSet[j], x.rv, x.wv - 1) {
      RevalidatedStable(s, s', t, x.readSet[j], x.rv, x.wv - 1);
    }
  }

  /** A read whose lock word is old, and free or one's own, saw the last version before `wv`. */
  lemma RecheckPassed(s: State, x: Tx, l: Loc, t: Tid)
    requires Inv(s) && t < |s.txs| && x == s.txs[t] && x.pc.Validating?
    requires s.cells[l].version <= x.rv && (l in x.lockedSet || !s.cells[l].locked)
    ensures Revalidated(s, l, x.rv, x.wv - 1)
  {
    assert TxInv(s, t) && CellInv(s, l);
    OldQuiet(s, l, x.rv);
    forall u | 0 <= u < |s.txs| && Undecided(s.txs[u]) && s.txs[u].wv <= x.wv - 1
      ensures l !in Locs(s.txs[u].writeSet)
    {
      assert TxInv(s, u);
    }
  }

  lemma PublishingOk(s: State, t: Tid)
    requires Inv(s) && t < |s.txs| && s.txs[t].pc.Publishing?
    ensures StepOk(s, DoPublishing(s, t), t)
  {
    assert TxInv(s, t);
    if s.txs[t].pc.i >= |s.txs[t].writeSet| {
      PublishedShape(s.txs[t], s.clock);
      MoveOk(s, DoPublishing(s, t), t);
    } else {
      PublishOk(s, DoPublishing(s, t), t);
    }
  }

  lemma PublishOk(s: State, s': State, t: Tid)
    requires Inv(s) && t < |s.txs| && TxInv(s, t) && s.txs[t].pc.Publishing? && s.txs[t].pc.i < |s.txs[t].writeSet|
    requires s' == DoPublishing(s, t)
    ensures StepOk(s, s', t)
  {
    PublishingShape(s, s', t);
    forall l ensures CellInv(s', l) { PublishingCell(s, s', t, l); }
    OneWordStep(s, s', t);
  }

  lemma PublishedShape(x: Tx, clock: nat)
    requires Shape(x, clock) && x.pc.Publishing? && x.pc.i >= |x.writeSet|
    ensures Shape(x.(pc := Unlocking(0, true)), clock) && SameProgress(x, x.(pc := Unlocking(0, true)))
  {
    assert x.writeSet[x.pc.i..] == [] == x.writeSet[..0];
  }

  lemma PublishingCell(s: State, s': State, t: Tid, l: Loc)
    requires Inv(s) && t < |s.txs| && TxInv(s, t)
    requires s.txs[t].pc.Publishing? && s.txs[t].pc.i < |s.txs[t].writeSet|
    requires s' == DoPublishing(s, t) && Effect(s, s', t) && ToPublish(s'.txs[t]) == ToPublish(s.txs[t])
    ensures CellInv(s', l)
  {
    var x, x' := s.txs[t], s'.txs[t];
    LocsPrefix(x.writeSet, x.pc.i);
    PublishingValue(x, x', l, s.cells[l].val);
    if l != x.writeSet[x.pc.i].loc { CellKeep(s, s', t, l); } else { CopiedCell(s, s', t, l); }
  }

  lemma PublishingShape(s: State, s': State, t: Tid)
    requires t < |s.txs| && TxInv(s, t) && s.txs[t].pc.Publishing? && s.txs[t].pc.i < |s.txs[t].writeSet|
    requires s' == DoPublishing(s, t)
    ensures Effect(s, s', t) && TxInv(s', t)
    ensures ToPublish(s'.txs[t]) == ToPublish(s.txs[t])
  {
    var x := s.txs[t];
    LocsPrefix(x.writeSet, x.pc.i);
  }

  lemma PublishingValue(x: Tx, x': Tx, l: Loc, v: Val)
    requires x.pc.Publishing? && x.pc.i < |x.writeSet| && x' == x.(pc := VersionLoad(x.pc.i))
    ensures var w := x.writeSet[x.pc.i];
            Overlay(ToCopy(x), l, v) == Overlay(ToCopy(x'), l, if w.loc == l then w.val else v)
  {
    assert x.writeSet[x.pc.i..][1..] == x.writeSet[x.pc.i + 1..];
    OverlayFront(x.writeSet[x.pc.i..], l, v);
  }

  lemma CopiedCell(s: State, s': State, t: Tid, l: Loc)
    requires Inv(s) && Effect(s, s', t) && t < |s.txs| && s'.log == s.log && s'.clock == s.clock
    requires s.cells[l].owner == Some(t) && s'.cells[l] == s.cells[l].(val := s'.cells[l].val)
    requires l in s'.txs[t].lockedSet && ToPublish(s'.txs[t]) == ToPublish(s.txs[t])
    requires Overlay(ToCopy(s.txs[t]), l, s.cells[l].val) == Overlay(ToCopy(s'.txs[t]), l, s'.cells[l].val)
    ensures CellInv(s', l)
  {
    assert CellInv(s, l);
    forall w | w in s'.log && l in Locs(s'.log[w].writes) ensures Published(s', l, w) {
      assert Published(s, l, w);
    }
  }

  lemma VersionLoadOk(s: State, t: Tid)
    requires Inv(s) && t < |s.txs| && s.txs[t].pc.VersionLoad?
    ensures StepOk(s, DoVersionLoad(s, t), t)
  {
    var s' := DoVersionLoad(s, t);
    assert TxInv(s, t);
    LocsPrefix(s.txs[t].writeSet, s.txs[t].pc.i);
    assert CellInv(s, s.txs[t].writeSet[s.txs[t].pc.i].loc);
    VersionLoadShape(s, s', t);
    MoveOk(s, s', t);
  }

  lemma VersionLoadShape(s: State, s': State, t: Tid)
    requires t < |s.txs| && s.txs[t].pc.VersionLoad? && Shape(s.txs[t], s.clock)
    requires s.cells[s.txs[t].writeSet[s.txs[t].pc.i].loc].locked
    requires s' == DoVersionLoad(s, t)
    ensures Private(s, s', t) && Shape(s'.txs[t], s.clock) && s'.txs[t].pc.VersionStore?
    ensures s'.txs[t] == s.txs[t].(pc := s'.txs[t].pc) && !Failed(s.txs[t])
  {
  }

  /** A step that touches one word and leaves clock, history and write versions alone. */
  lemma OneWordStep(s: State, s': State, t: Tid)
    requires UniqueVersions(s) && t < |s.txs| && Effect(s, s', t) && TxInv(s', t)
    requires s'.log == s.log && |s'.txs| == |s.txs| && s'.txs[t].wv == s.txs[t].wv
    requires Decided(s.txs[t]) ==> Decided(s'.txs[t])
    requires forall l :: CellInv(s', l)
    ensures StepOk(s, s', t)
  {
    forall u, v | 0 <= u < v < |s'.txs| && s'.txs[u].wv > 0 ensures s'.txs[u].wv != s'.txs[v].wv {
      assert s.txs[u].wv == s'.txs[u].wv && s.txs[v].wv == s'.txs[v].wv;
    }
  }

  lemma VersionStoreOk(s: State, t: Tid)
    requires Inv(s) && t < |s.txs| && s.txs[t].pc.VersionStore?
    ensures StepOk(s, DoVersionStore(s, t), t)
  {
    var s' := DoVersionStore(s, t);
    assert TxInv(s, t);
    assert CellInv(s, s.txs[t].writeSet[s.txs[t].pc.i].loc);
    VersionStoreShape(s, s', t);
    forall l ensures CellInv(s', l) { VersionStoreCell(s, s', t, l); }
    OneWordStep(s, s', t);
  }

  lemma VersionStoreCell(s: State, s': State, t: Tid, l: Loc)
    requires Inv(s) && t < |s.txs| && TxInv(s, t) && s.txs[t].pc.VersionStore?
    requires s' == DoVersionStore(s, t) && Effect(s, s', t) && Decided(s.txs[t])
    requires ToPublish(s'.txs[t]) == s.txs[t].writeSet[s.txs[t].pc.i + 1..] == ToCopy(s'.txs[t])
    requires var l0 := s.txs[t].writeSet[s.txs[t].pc.i].loc;
             s.cells[l0].owner == Some(t) && s'.cells[l0] == s.cells[l0].(version := s.txs[t].wv)
    ensures CellInv(s', l)
  {
    var x := s.txs[t];
    LocsPrefix(x.writeSet, x.pc.i);
    if l != x.writeSet[x.pc.i].loc { CellKeep(s, s', t, l); } else { VersionedCell(s, s', t, l); }
  }

  lemma VersionStoreShape(s: State, s': State, t: Tid)
    requires t < |s.txs| && s.txs[t].pc.VersionStore? && TxInv(s, t)
    requires CellInv(s, s.txs[t].writeSet[s.txs[t].pc.i].loc)
    requires s' == DoVersionStore(s, t)
    ensures Effect(s, s', t) && TxInv(s', t) && Decided(s.txs[t]) && Decided(s'.txs[t])
    ensures var l0 := s.txs[t].writeSet[s.txs[t].pc.i].loc;
            && s.cells[l0].locked && s.cells[l0].owner == Some(t)
            && s'.cells[l0] == s.cells[l0].(version := s.txs[t].wv)
    ensures ToPublish(s'.txs[t]) == s.txs[t].writeSet[s.txs[t].pc.i + 1..] == ToCopy(s'.txs[t])
  {
    var x, x' := s.txs[t], s'.txs[t];
    LocsPrefix(x.writeSet, x.pc.i);
    VersionStoreTx(x, x', s.clock);
    OwnCellEffect(s, s', t, x.writeSet[x.pc.i].loc);
    DecidedKeep(s, s', t, x.writeSet[x.pc.i].loc);
  }

  /** A decided transaction still owns what it owned after a step that keeps its locks. */
  lemma DecidedKeep(s: State, s': State, t: Tid, l0: Loc)
    requires t < |s.txs| && TxInv(s, t) && Decided(s.txs[t]) && t < |s'.txs| && Shape(s'.txs[t], s'.clock)
    requires Decided(s'.txs[t]) && s'.txs[t] == s.txs[t].(pc := s'.txs[t].pc) && !s'.txs[t].pc.UnlockStore?
    requires s'.log == s.log && s'.cells == s.cells[l0 := s'.cells[l0]]
    requires s'.cells[l0].owner == s.cells[l0].owner == Some(t) && s'.cells[l0].version <= s.txs[t].wv
    ensures TxInv(s', t)
  {
  }

  /** A decided transaction that moves on and touches one word it holds. */
  lemma OwnCellEffect(s: State, s': State, t: Tid, l0: Loc)
    requires t < |s.txs| && s'.clock == s.clock && s'.log == s.log
    requires s.cells[l0].owner == Some(t) && s'.cells[l0].owner in {None, Some(t)}
    requires s'.cells == s.cells[l0 := s'.cells[l0]]
    requires s'.txs == s.txs[t := if t < |s'.txs| then s'.txs[t] else s.txs[t]]
    requires Onward(s.txs[t], s'.txs[t], s.clock) && !Undecided(s'.txs[t])
    ensures Effect(s, s', t)
  {
  }

  lemma VersionStoreTx(x: Tx, x': Tx, clock: nat)
    requires Shape(x, clock) && x.pc.VersionStore? && x' == x.(pc := Publishing(x.pc.i + 1))
    ensures Shape(x', clock) && Decided(x) && Decided(x') && !Undecided(x')
    ensures ToPublish(x') == x.writeSet[x.pc.i + 1..] == ToCopy(x') && Onward(x, x', clock)
  {
  }

  lemma VersionedCell(s: State, s': State, t: Tid, l: Loc)
    requires Inv(s) && Effect(s, s', t) && t < |s.txs| && TxInv(s, t) && s'.log == s.log && s'.clock == s.clock
    requires Decided(s.txs[t]) && s.cells[l].owner == Some(t) && l in Locs(s.txs[t].writeSet)
    requires s'.cells[l] == s.cells[l].(version := s.txs[t].wv)
    requires l in s'.txs[t].lockedSet && ToCopy(s'.txs[t]) == ToCopy(s.txs[t])
    ensures CellInv(s', l)
  {
    assert CellInv(s, l);
    forall w | w in s'.log && l in Locs(s'.log[w].writes) ensures Published(s', l, w) {
      assert Published(s, l, w);
      if w > s.cells[l].version { OweOnlyOwned(s, l, s.log[w].tid); }
    }
  }

  lemma UnlockStoreOk(s: State, t: Tid)
    requires Inv(s) && t < |s.txs| && s.txs[t].pc.UnlockStore?
    ensures StepOk(s, DoUnlockStore(s, t), t)
  {
    var s' := DoUnlockStore(s, t);
    assert TxInv(s, t);
    UnlockStoreShape(s, s', t);
    UnlockStoreCells(s, s', t, s.txs[t].writeSet[s.txs[t].pc.i].loc);
    OneWordStep(s, s', t);
  }

  lemma UnlockStoreCells(s: State, s': State, t: Tid, l0: Loc)
    requires Inv(s) && Effect(s, s', t) && t < |s.txs|
    requires s.cells[l0].owner == Some(t) && s'.cells == s.cells[l0 := s.cells[l0].(locked := false, owner := None)]
    requires s'.log == s.log && s'.clock == s.clock && s'.txs[t].lockedSet == s.txs[t].lockedSet - {l0}
    requires ToPublish(s.txs[t]) == ToCopy(s.txs[t]) == [] == ToCopy(s'.txs[t])
    ensures forall l :: CellInv(s', l)
  {
    forall l ensures CellInv(s', l) {
      if l != l0 { CellKeep(s, s', t, l); } else { ReleasedCell(s, s', t, l); }
    }
  }

  lemma UnlockStoreShape(s: State, s': State, t: Tid)
    requires t < |s.txs| && s.txs[t].pc.UnlockStore? && TxInv(s, t)
    requires s' == DoUnlockStore(s, t)
    ensures Effect(s, s', t) && TxInv(s', t) && (Decided(s.txs[t]) ==> Decided(s'.txs[t]))
    ensures var l0 := s.txs[t].writeSet[s.txs[t].pc.i].loc;
            && s.cells[l0].owner == Some(t)
            && s'.cells[l0] == s.cells[l0].(locked := false, owner := None)
    ensures ToPublish(s.txs[t]) == ToCopy(s.txs[t]) == [] == ToPublish(s'.txs[t]) == ToCopy(s'.txs[t])
  {
    var x, x' := s.txs[t], s'.txs[t];
    UnlockStoreTx(x, x', s.clock);
    OwnCellEffect(s, s', t, x.writeSet[x.pc.i].loc);
  }

  lemma UnlockStoreTx(x: Tx, x': Tx, clock: nat)
    requires Shape(x, clock) && x.pc.UnlockStore?
    requires x' == x.(lockedSet := x.lockedSet - {x.writeSet[x.pc.i].loc}, pc := Unlocking(x.pc.i + 1, x.pc.ok))
    ensures Onward(x, x', clock)
    ensures Shape(x', clock) && (Decided(x) <==> Decided(x')) && (Failed(x) <==> Failed(x')) && !Undecided(x')
    ensures ToPublish(x) == ToCopy(x) == [] == ToPublish(x') == ToCopy(x')
  {
    LocsPrefix(x.writeSet, x.pc.i);
  }

  lemma ReleasedCell(s: State, s': State, t: Tid, l: Loc)
    requires Inv(s) && Effect(s, s', t) && t < |s.txs| && s'.log == s.log && s'.clock == s.clock
    requires s.cells[l].owner == Some(t) && s'.cells[l] == s.cells[l].(locked := false, owner := None)
    requires ToPublish(s.txs[t]) == ToCopy(s.txs[t]) == []
    ensures CellInv(s', l)
  {
    assert CellInv(s, l);
    forall w | w in s'.log && l in Locs(s'.log[w].writes) ensures Published(s', l, w) {
      assert Published(s, l, w);
    }
  }

  // ---- The invariant holds over every run ----

  lemma TauOk(s: State, t: Tid)
    requires Inv(s) && Enabled(s, Tau(t))
    ensures StepOk(s, DoTau(s, t), t)
  {
    if Reading(s.txs[t].pc) { ReadingOk(s, t); } else { CommittingOk(s, t); }
  }

  predicate Reading(pc: Pc) {
    pc.RwCheck? || pc.RwCopy? || pc.RoCopy? || pc.RoCheck? || pc.RoClock? || pc.RoValidate? || pc.RoRecopy?
  }

  lemma ReadingOk(s: State, t: Tid)
    requires Inv(s) && Enabled(s, Tau(t)) && Reading(s.txs[t].pc)
    ensures StepOk(s, DoTau(s, t), t)
  {
    match s.txs[t].pc
    case RwCheck(_) => RwCheckOk(s, t);
    case RwCopy(_) => RwCopyOk(s, t);
    case RoCopy(_) => RoCopyOk(s, t, 0);
    case RoCheck(_, _, _, _) => RoCheckOk(s, t);
    case RoClock(_, _) => RoClockOk(s, t);
    case RoValidate(_, _, _, _) => RoValidateOk(s, t);
    case RoRecopy(_, k) => RoRecopyOk(s, t);
  }

  lemma CommittingOk(s: State, t: Tid)
    requires Inv(s) && Enabled(s, Tau(t)) && !Reading(s.txs[t].pc)
    ensures StepOk(s, DoTau(s, t), t)
  {
    match s.txs[t].pc
    case Locking(_) => LockingOk(s, t);
    case TryCas(_, _) => TryCasOk(s, t);
    case Tick => TickOk(s, t);
    case Validating(_) => ValidatingOk(s, t);
    case Publishing(_) => PublishingOk(s, t);
    case VersionLoad(_) => VersionLoadOk(s, t);
    case VersionStore(_, _) => VersionStoreOk(s, t);
    case Unlocking(_, _) => UnlockingOk(s, t);
    case UnlockStore(_, _, _) => UnlockStoreOk(s, t);
  }

  lemma RoClockOk(s: State, t: Tid)
    requires Inv(s) && t < |s.txs| && s.txs[t].pc.RoClock?
    ensures StepOk(s, DoRoClock(s, t), t)
  {
    assert TxInv(s, t);
    MoveOk(s, DoRoClock(s, t), t);
  }

  /** Who moves in an action. */
  function Mover(s: State, a: Action): Tid {
    match a
    case Begin(_) => |s.txs|
    case Invoke(t, _) => t
    case Tau(t) => t
  }

  lemma DoOk(s: State, a: Action)
    requires Inv(s) && Enabled(s, a)
    ensures StepOk(s, Do(s, a), Mover(s, a))
    ensures Inv(Do(s, a))
  {
    match a {
      case Begin(ro) => BeginOk(s, ro);
      case Invoke(t, c) => CallOk(s, t, c);
      case Tau(t) => TauOk(s, t);
    }
    Assemble(s, Do(s, a), Mover(s, a));
  }

  lemma {:induction false} RunInv(run: seq<State>, i: nat)
    requires IsRun(run) && i < |run|
    ensures Inv(run[i])
  {
    if i == 0 {
      InitialInv();
    } else {
      RunInv(run, i - 1);
      assert StepAt(run, i - 1);
      var a :| Enabled(run[i - 1], a) && run[i] == Do(run[i - 1], a);
      DoOk(run[i - 1], a);
    }
  }
}
