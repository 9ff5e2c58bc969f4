/** What every step of the machine keeps. */
module StmInvariant {
  import opened Options
  import opened SharedMemory
  import opened Stm

  // ---- Phases of a transaction ----

  /** Owns a write version, still validating. */
  predicate Undecided(x: Tx) {
    x.pc.Validating?
  }

  /** Validation succeeded: the commit is in the history. */
  predicate Decided(x: Tx) {
    && !x.ro
    && match x.pc {
         case Publishing(_) => true
         case VersionLoad(_) => true
         case VersionStore(_, _) => true
         case Unlocking(_, ok) => ok
         case UnlockStore(_, _, ok) => ok
         case Finished(ok) => ok
         case _ => false
       }
  }

  predicate Failed(x: Tx) {
    match x.pc
    case Unlocking(_, ok) => !ok
    case UnlockStore(_, _, ok) => !ok
    case Finished(ok) => !ok
    case _ => false
  }

  /** Redo-log entries whose version store is still to come. */
  function ToPublish(x: Tx): seq<Write> {
    match x.pc
    case Publishing(i) => if i <= |x.writeSet| then x.writeSet[i..] else []
    case VersionLoad(i) => if i <= |x.writeSet| then x.writeSet[i..] else []
    case VersionStore(i, _) => if i <= |x.writeSet| then x.writeSet[i..] else []
    case _ => []
  }

  /** Redo-log entries whose copy to memory is still to come. */
  function ToCopy(x: Tx): seq<Write> {
    match x.pc
    case Publishing(i) => if i <= |x.writeSet| then x.writeSet[i..] else []
    case VersionLoad(i) => if i < |x.writeSet| then x.writeSet[i + 1..] else []
    case VersionStore(i, _) => if i < |x.writeSet| then x.writeSet[i + 1..] else []
    case _ => []
  }

  predicate HoldsAll(x: Tx) {
    !x.ro && x.wv > 0 && x.lockedSet == Locs(x.writeSet)
  }

  /** Private fields of a transaction agree with its place in the code. */
  predicate Shape(x: Tx, clock: nat) {
    && x.rv <= clock
    && (x.wv == -1 || x.rv < x.wv <= clock)
    && (x.ro ==> x.wv == -1 && x.writeSet == [])
    && x.writeSet == StoresOf(x.ops)
    && match x.pc {
         case Idle => x.wv == -1 && x.lockedSet == {}
         case RwCheck(_) => x.wv == -1 && x.lockedSet == {} && !x.ro
         case RwCopy(l) => x.wv == -1 && x.lockedSet == {} && !x.ro && l in x.readSet && l !in Locs(x.writeSet)
         case RoCopy(_) => x.ro && x.lockedSet == {}
         case RoCheck(_, _, _, k) => x.ro && x.lockedSet == {} && k < RO_RETRIES
         case RoClock(_, k) => x.ro && x.lockedSet == {} && k < RO_RETRIES
         case RoValidate(_, k, now, i) =>
           x.ro && x.lockedSet == {} && k < RO_RETRIES && x.rv <= now <= clock && i <= |x.readSet|
         case RoRecopy(_, k) => x.ro && x.lockedSet == {} && k < RO_RETRIES
         case Locking(i) => !x.ro && x.wv == -1 && i <= |x.writeSet| && x.lockedSet == Locs(x.writeSet[..i])
         case TryCas(i, _) =>
           && !x.ro && x.wv == -1 && i < |x.writeSet|
           && x.lockedSet == Locs(x.writeSet[..i]) && x.writeSet[i].loc !in x.lockedSet
         case Tick => !x.ro && x.wv == -1 && x.lockedSet == Locs(x.writeSet)
         case Validating(i) => HoldsAll(x) && i <= |x.readSet|
         case Publishing(i) => HoldsAll(x) && i <= |x.writeSet|
         case VersionLoad(i) => HoldsAll(x) && i < |x.writeSet|
         case VersionStore(i, held) => HoldsAll(x) && i < |x.writeSet| && held
         case Unlocking(i, ok) =>
           && !x.ro && i <= |x.writeSet| && x.lockedSet <= Locs(x.writeSet)
           && x.lockedSet !! Locs(x.writeSet[..i]) && (ok ==> x.wv > 0)
         case UnlockStore(i, _, ok) =>
           && !x.ro && i < |x.writeSet| && x.lockedSet <= Locs(x.writeSet)
           && x.lockedSet !! Locs(x.writeSet[..i]) && x.writeSet[i].loc in x.lockedSet && (ok ==> x.wv > 0)
         case Finished(ok) => x.lockedSet == {} && (ok && !x.ro ==> x.wv > 0)
       }
  }

  // ---- History predicates ----

  /** No transaction that may still commit with a version at most `v` will write the word. */
  ghost predicate Frozen(txs: seq<Tx>, l: Loc, v: int) {
    forall u :: 0 <= u < |txs| && Undecided(txs[u]) && txs[u].wv <= v ==> l !in Locs(txs[u].writeSet)
  }

  /** No commit with version in (a, b] writes the word. */
  ghost predicate Quiet(log: map<nat, Commit>, l: Loc, a: int, b: int) {
    forall w :: w in log && a < w <= b ==> l !in Locs(log[w].writes)
  }

  /** The last version that could have overwritten what a read-write transaction copied. */
  function Horizon(s: State, x: Tx): int {
    if x.wv > 0 then x.wv - 1 else s.clock
  }

  /** Read `k` of a read-write transaction before its commit is decided: it came from the redo log,
      or it is the value at `rv` unless a newer commit has overwritten the word. */
  ghost predicate RwRead(s: State, x: Tx, k: nat)
    requires k < |x.ops| && x.ops[k].Read?
  {
    var l := x.ops[k].loc;
    var before := StoresOf(x.ops[..k]);
    if l in Locs(before) then x.ops[k].val == Overlay(before, l, 0)
    else l in x.readSet && (Quiet(s.log, l, x.rv, Horizon(s, x)) ==> x.ops[k].val == At(s.log, l, x.rv))
  }

  ghost predicate Revalidated(s: State, l: Loc, rv: nat, v: int) {
    Quiet(s.log, l, rv, v) && Frozen(s.txs, l, v)
  }

  ghost predicate RwReads(s: State, x: Tx) {
    && (forall j :: 0 <= j < |x.readSet| ==> Frozen(s.txs, x.readSet[j], x.rv))
    && (forall k :: 0 <= k < |x.ops| && x.ops[k].Read? ==> RwRead(s, x, k))
    && (x.pc.Validating? ==>
          forall j :: 0 <= j < x.pc.i && j < |x.readSet| ==> Revalidated(s, x.readSet[j], x.rv, x.wv - 1))
  }

  predicate Settled(x: Tx) {
    Decided(x) || Failed(x)
  }

  /** What the memory at version `rv` holds at `l`, given a read-only copy `v` of it made under the
      lock of `u`: the word `u` wrote if `u` committed, else the copy itself. */
  ghost predicate CopyVerdict(s: State, l: Loc, v: Val, under: Option<Tid>, rv: nat) {
    match under
    case None => At(s.log, l, rv) == v
    case Some(u) =>
      && u < |s.txs| && Settled(s.txs[u]) && s.txs[u].wv > 0 && l in Locs(s.txs[u].writeSet)
      && At(s.log, l, rv) == if Decided(s.txs[u]) then Overlay(s.txs[u].writeSet, l, 0) else v
  }

  /** Read `k` of a read-only transaction: nothing older can still change the word. */
  ghost predicate RoRead(s: State, x: Tx, k: nat)
    requires k < |x.ops| && k < |x.readSet|
  {
    && x.ops[k].Read?
    && x.ops[k].loc == x.readSet[k]
    && Frozen(s.txs, x.readSet[k], x.rv)
    && CopyVerdict(s, x.readSet[k], x.ops[k].val, x.ops[k].under, x.rv)
  }

  /** A copy `v` of `l`, before its check.  With no old writer it is the value at `rv` unless a newer
      commit overwrote it.  Under old writer `u` it is the value before `u` until `u` decides. */
  ghost predicate Copied(s: State, l: Loc, v: Val, under: Option<Tid>, rv: nat) {
    match under
    case None =>
      && Frozen(s.txs, l, rv)
      && (Quiet(s.log, l, rv, s.clock) ==> v == At(s.log, l, rv))
    case Some(u) =>
      && u < |s.txs| && (Undecided(s.txs[u]) || Settled(s.txs[u]))
      && 0 < s.txs[u].wv <= rv && l in Locs(s.txs[u].writeSet)
      && FrozenBut(s.txs, u, l, rv)
      && Quiet(s.log, l, s.txs[u].wv, rv)
      && (!Decided(s.txs[u]) ==> v == At(s.log, l, s.txs[u].wv))
  }

  ghost predicate FrozenBut(txs: seq<Tx>, u: Tid, l: Loc, v: int) {
    forall w :: 0 <= w < |txs| && w != u && Undecided(txs[w]) && txs[w].wv <= v ==> l !in Locs(txs[w].writeSet)
  }

  ghost predicate RoReads(s: State, x: Tx) {
    && |x.ops| == |x.readSet|
    && (forall k :: 0 <= k < |x.ops| ==> RoRead(s, x, k))
    && (x.pc.RoCheck? ==> Copied(s, x.pc.l, x.pc.x, x.pc.under, x.rv))
    && (x.pc.RoValidate? ==>
          forall j :: 0 <= j < x.pc.i && j < |x.readSet| ==> Revalidated(s, x.readSet[j], x.rv, x.pc.now))
  }

  ghost predicate TxInv(s: State, t: Tid)
    requires t < |s.txs|
  {
    var x := s.txs[t];
    && Shape(x, s.clock)
    && (Decided(x) ==> x.wv > 0 && x.wv in s.log && s.log[x.wv] == Commit(t, x.writeSet, x.ops))
    && (!Decided(x) && x.wv > 0 ==> x.wv !in s.log)
    && (forall l :: l in x.lockedSet <==> s.cells[l].owner == Some(t))
    && (forall l :: l in x.lockedSet && x.wv > 0 ==> s.cells[l].version <= x.wv)
    && (x.pc.UnlockStore? ==> x.pc.seen == s.cells[x.writeSet[x.pc.i].loc].version)
    && (x.pc.RwCopy? ==> OldWriter(s, x.pc.l, x.rv) == None)
    && (!x.ro && !Failed(x) && !Decided(x) ==> RwReads(s, x))
    && (x.ro && !Failed(x) ==> RoReads(s, x))
  }

  /** Every commit in the history that writes the word is published, or its owner still has to. */
  ghost predicate Published(s: State, l: Loc, w: nat)
    requires w in s.log
  {
    || w <= s.cells[l].version
    || (s.log[w].tid < |s.txs| && l in Locs(ToPublish(s.txs[s.log[w].tid])))
  }

  ghost predicate CellInv(s: State, l: Loc) {
    var c := s.cells[l];
    && (c.locked <==> c.owner.Some?)
    && (c.owner.Some? ==> c.owner.value < |s.txs| && l in s.txs[c.owner.value].lockedSet)
    && c.version <= s.clock
    && (c.version > 0 ==> c.version in s.log && l in Locs(s.log[c.version].writes))
    && (forall w :: w in s.log && l in Locs(s.log[w].writes) ==> Published(s, l, w))
    && Overlay(if c.owner.Some? then ToCopy(s.txs[c.owner.value]) else [], l, c.val) == At(s.log, l, s.clock)
  }

  /** A decided commit replays on the memory of its predecessors, now and forever. */
  ghost predicate Serial(s: State, w: nat)
    requires w in s.log && w > 0
  {
    var c := s.log[w];
    && c.writes == StoresOf(c.ops)
    && forall k :: 0 <= k < |c.ops| && c.ops[k].Read? ==> SerialRead(s, w, k)
  }

  ghost predicate SerialRead(s: State, w: nat, k: nat)
    requires w in s.log && w > 0 && k < |s.log[w].ops| && s.log[w].ops[k].Read?
  {
    var o := s.log[w].ops[k];
    var before := StoresOf(s.log[w].ops[..k]);
    && o.val == Overlay(before, o.loc, At(s.log, o.loc, w - 1))
    && (o.loc in Locs(before) || Frozen(s.txs, o.loc, w - 1))
  }

  ghost predicate LogInv(s: State) {
    forall w :: w in s.log ==>
      && 0 < w <= s.clock
      && s.log[w].tid < |s.txs|
      && Decided(s.txs[s.log[w].tid]) && s.txs[s.log[w].tid].wv == w
      && Serial(s, w)
  }

  ghost predicate UniqueVersions(s: State) {
    forall t, u :: 0 <= t < u < |s.txs| && s.txs[t].wv > 0 ==> s.txs[t].wv != s.txs[u].wv
  }

  ghost predicate Inv(s: State) {
    && (forall t :: 0 <= t < |s.txs| ==> TxInv(s, t))
    && (forall l :: CellInv(s, l))
    && LogInv(s)
    && UniqueVersions(s)
  }

  lemma InitialInv()
    ensures Inv(Initial())
  {
  }

  // ---- Facts about the serial memory ----

  lemma {:induction false} AtQuiet(log: map<nat, Commit>, l: Loc, a: nat, b: nat)
    requires a <= b && Quiet(log, l, a, b)
    ensures At(log, l, b) == At(log, l, a)
    decreases b
  {
    if a < b {
      AtQuiet(log, l, a, b - 1);
      if b in log { OverlayDefault(log[b].writes, l, At(log, l, b - 1), 0); }
    }
  }

  /** New commits change no value at `v` unless they have a version up to `v` and write the word. */
  lemma {:induction false} AtSame(log: map<nat, Commit>, log': map<nat, Commit>, l: Loc, v: nat)
    requires forall w :: w in log && w <= v ==> w in log' && log'[w] == log[w]
    requires forall w :: w in log' && w !in log && w <= v ==> l !in Locs(log'[w].writes)
    ensures At(log', l, v) == At(log, l, v)
    decreases v
  {
    if v > 0 {
      AtSame(log, log', l, v - 1);
      if v in log' && v !in log { OverlayDefault(log'[v].writes, l, At(log', l, v - 1), 0); }
    }
  }

  // ---- What one transaction's step may do to the others ----

  /** A write version is drawn once and freezes the redo log; a settled fate is final. */
  predicate Onward(x: Tx, x': Tx, clock: nat) {
    && x'.rv >= x.rv
    && (x.pc.Finished? ==> x' == x)
    && (x'.wv == x.wv || (x.wv < 0 && x'.wv > clock))
    && (x.wv > 0 ==> x'.writeSet == x.writeSet)
    && (Decided(x) ==> Decided(x') && x'.ops == x.ops)
    && (Failed(x) ==> Failed(x'))
    && (Undecided(x) ==> Undecided(x') || Settled(x'))
  }

  ghost predicate Effect(s: State, s': State, t: Tid) {
    && t < |s'.txs|
    && |s.txs| <= |s'.txs| <= |s.txs| + 1
    && (|s'.txs| > |s.txs| ==> t == |s.txs|)
    && (forall u :: 0 <= u < |s.txs| && u != t ==> s'.txs[u] == s.txs[u])
    && s.clock <= s'.clock
    && (if t < |s.txs| then Onward(s.txs[t], s'.txs[t], s.clock) else s'.txs[t].wv == -1 && s'.txs[t].rv == s.clock)
    && (Undecided(s'.txs[t]) ==>
          || s'.txs[t].wv > s.clock
          || (t < |s.txs| && Undecided(s.txs[t])
              && s'.txs[t].wv == s.txs[t].wv && s'.txs[t].writeSet == s.txs[t].writeSet))
    && (forall w :: w in s.log ==> w in s'.log && s'.log[w] == s.log[w])
    && (forall w :: w in s'.log && w !in s.log ==>
          && t < |s.txs| && Decided(s'.txs[t])
          && s'.log[w].tid == t
          && s'.log[w].writes == s.txs[t].writeSet
          && Locs(s.txs[t].writeSet) == s.txs[t].lockedSet
          && (w == s.clock + 1 || (Undecided(s.txs[t]) && w == s.txs[t].wv)))
    && (forall l :: s'.cells[l] != s.cells[l] ==>
          && (s.cells[l].owner == None || s.cells[l].owner == Some(t))
          && (s'.cells[l].owner == None || s'.cells[l].owner == Some(t))
          && (s'.cells[l].owner == Some(t) && s.cells[l].owner == None ==> s'.txs[t].wv < 0))
  }

  lemma NoOldWriterStable(s: State, s': State, t: Tid, l: Loc, rv: nat)
    requires Effect(s, s', t) && rv <= s.clock
    requires s.cells[l].owner.Some? ==> s.cells[l].owner.value < |s.txs|
    requires OldWriter(s, l, rv) == None
    ensures OldWriter(s', l, rv) == None
  {
  }

  lemma FrozenStable(s: State, s': State, t: Tid, l: Loc, v: int)
    requires Effect(s, s', t) && v <= s.clock
    requires Frozen(s.txs, l, v)
    ensures Frozen(s'.txs, l, v)
  {
    forall u | 0 <= u < |s'.txs| && Undecided(s'.txs[u]) && s'.txs[u].wv <= v
      ensures l !in Locs(s'.txs[u].writeSet)
    {
      if u != t { assert s'.txs[u] == s.txs[u]; }
    }
  }

  lemma ValueStable(s: State, s': State, t: Tid, l: Loc, v: nat)
    requires Effect(s, s', t) && v <= s.clock
    requires Frozen(s.txs, l, v)
    ensures At(s'.log, l, v) == At(s.log, l, v)
  {
    AtSame(s.log, s'.log, l, v);
  }

  lemma QuietStable(s: State, s': State, t: Tid, l: Loc, a: int, b: int)
    requires Effect(s, s', t) && b <= s.clock
    requires Frozen(s.txs, l, b) && Quiet(s.log, l, a, b)
    ensures Quiet(s'.log, l, a, b)
  {
  }

  lemma RevalidatedStable(s: State, s': State, t: Tid, l: Loc, rv: nat, v: int)
    requires Effect(s, s', t) && v <= s.clock && Revalidated(s, l, rv, v)
    ensures Revalidated(s', l, rv, v)
  {
    FrozenStable(s, s', t, l, v);
    QuietStable(s, s', t, l, rv, v);
  }

  lemma QuietBack(s: State, s': State, t: Tid, l: Loc, a: int, b: int, b': int)
    requires Effect(s, s', t) && b <= b' && Quiet(s'.log, l, a, b')
    ensures Quiet(s.log, l, a, b)
  {
  }

  /** Reads of a transaction survive any step after which it has the same read version and horizon. */
  lemma RwReadStable(s: State, s': State, t: Tid, x: Tx, x': Tx, k: nat)
    requires Effect(s, s', t)
    requires k < |x.ops| && x.ops[k].Read? && RwRead(s, x, k) && x.rv <= s.clock
    requires k < |x'.ops| && x'.ops[..k + 1] == x.ops[..k + 1] && x'.rv == x.rv
    requires forall l :: l in x.readSet ==> l in x'.readSet && Frozen(s.txs, l, x.rv)
    requires Horizon(s, x) <= Horizon(s', x')
    ensures x'.ops[k] == x.ops[k] && RwRead(s', x', k)
  {
    assert x'.ops[k] == x'.ops[..k + 1][k] == x.ops[k];
    assert x'.ops[..k] == x'.ops[..k + 1][..k] == x.ops[..k];
    var l := x.ops[k].loc;
    if l !in Locs(StoresOf(x.ops[..k])) {
      if Quiet(s'.log, l, x.rv, Horizon(s', x')) {
        QuietBack(s, s', t, l, x.rv, Horizon(s, x), Horizon(s', x'));
        ValueStable(s, s', t, l, x.rv);
      }
    }
  }

  lemma CopiedStable(s: State, s': State, t: Tid, l: Loc, v: Val, under: Option<Tid>, rv: nat)
    requires Effect(s, s', t) && rv <= s.clock && Copied(s, l, v, under, rv)
    ensures Copied(s', l, v, under, rv)
  {
    match under
    case None =>
      FrozenStable(s, s', t, l, rv);
      if Quiet(s'.log, l, rv, s'.clock) {
        QuietBack(s, s', t, l, rv, s.clock, s'.clock);
        ValueStable(s, s', t, l, rv);
      }
    case Some(u) =>
      forall w | 0 <= w < |s'.txs| && w != u && Undecided(s'.txs[w]) && s'.txs[w].wv <= rv
        ensures l !in Locs(s'.txs[w].writeSet)
      {
        if w != t { assert s'.txs[w] == s.txs[w]; }
      }
      if !Decided(s'.txs[u]) { AtSame(s.log, s'.log, l, s.txs[u].wv); }
  }

  lemma RoReadStable(s: State, s': State, t: Tid, x: Tx, x': Tx, k: nat)
    requires Effect(s, s', t)
    requires k < |x.ops| && k < |x.readSet| && RoRead(s, x, k) && x.rv <= s.clock
    requires k < |x'.ops| && x'.ops[k] == x.ops[k] && k < |x'.readSet| && x'.readSet[k] == x.readSet[k]
    requires x'.rv == x.rv
    ensures RoRead(s', x', k)
  {
    FrozenStable(s, s', t, x.readSet[k], x.rv);
    VerdictStable(s, s', t, x.readSet[k], x.ops[k].val, x.ops[k].under, x.rv);
  }

  lemma VerdictStable(s: State, s': State, t: Tid, l: Loc, v: Val, under: Option<Tid>, rv: nat)
    requires Effect(s, s', t) && rv <= s.clock && Frozen(s.txs, l, rv)
    requires CopyVerdict(s, l, v, under, rv)
    ensures CopyVerdict(s', l, v, under, rv)
  {
    ValueStable(s, s', t, l, rv);
  }

  /** A transaction keeps its invariant under every other transaction's step. */
  lemma OthersKeep(s: State, s': State, t: Tid, u: Tid)
    requires Inv(s) && Effect(s, s', t) && UniqueVersions(s')
    requires u < |s.txs| && u != t
    ensures TxInv(s', u)
  {
    var x := s.txs[u];
    assert TxInv(s, u) && s'.txs[u] == x;
    if x.pc.RwCopy? {
      assert CellInv(s, x.pc.l);
      NoOldWriterStable(s, s', t, x.pc.l, x.rv);
    }
    if !x.ro && !Failed(x) && !Decided(x) { RwOthersKeep(s, s', t, x); }
    if x.ro && !Failed(x) { RoOthersKeep(s, s', t, x); }
  }

  lemma RwOthersKeep(s: State, s': State, t: Tid, x: Tx)
    requires Effect(s, s', t) && RwReads(s, x) && Shape(x, s.clock)
    ensures RwReads(s', x)
  {
    forall j | 0 <= j < |x.readSet| ensures Frozen(s'.txs, x.readSet[j], x.rv) {
      FrozenStable(s, s', t, x.readSet[j], x.rv);
    }
    forall k | 0 <= k < |x.ops| && x.ops[k].Read? ensures RwRead(s', x, k) {
      assert RwRead(s, x, k);
      RwReadStable(s, s', t, x, x, k);
    }
    if x.pc.Validating? {
      forall j | 0 <= j < x.pc.i && j < |x.readSet| ensures Revalidated(s', x.readSet[j], x.rv, x.wv - 1) {
        RevalidatedStable(s, s', t, x.readSet[j], x.rv, x.wv - 1);
      }
    }
  }

  lemma RoOthersKeep(s: State, s': State, t: Tid, x: Tx)
    requires Effect(s, s', t) && RoReads(s, x) && Shape(x, s.clock) && x.ro
    ensures RoReads(s', x)
  {
    forall k | 0 <= k < |x.ops| ensures RoRead(s', x, k) {
      RoReadStable(s, s', t, x, x, k);
    }
    if x.pc.RoCheck? { CopiedStable(s, s', t, x.pc.l, x.pc.x, x.pc.under, x.rv); }
    if x.pc.RoValidate? {
      forall j | 0 <= j < x.pc.i && j < |x.readSet| ensures Revalidated(s', x.readSet[j], x.rv, x.pc.now) {
        RevalidatedStable(s, s', t, x.readSet[j], x.rv, x.pc.now);
      }
    }
  }

  /** Decided commits stay explained by their predecessors. */
  lemma SerialStable(s: State, s': State, t: Tid, w: nat)
    requires Effect(s, s', t) && w in s.log && 0 < w <= s.clock && Serial(s, w)
    ensures Serial(s', w)
  {
    var c := s.log[w];
    forall k | 0 <= k < |c.ops| && c.ops[k].Read? ensures SerialRead(s', w, k) {
      assert SerialRead(s, w, k);
      var o := c.ops[k];
      var before := StoresOf(c.ops[..k]);
      if o.loc in Locs(before) {
        OverlayDefault(before, o.loc, At(s.log, o.loc, w - 1), At(s'.log, o.loc, w - 1));
      } else {
        FrozenStable(s, s', t, o.loc, w - 1);
        ValueStable(s, s', t, o.loc, w - 1);
      }
    }
  }
}
