/** The transactional memory of 358982/ as a step machine: any number of transactions, words and
    interleavings.  Each access to a shared atomic or to a shared word is one step of its own; steps
    that touch only a transaction's private fields are separate steps too. */
module Stm {
  import opened Options
  import opened SharedMemory

  type Tid = nat

  /** A shared word with its versioned lock.  `owner` is a history variable that no step reads:
      the transaction whose compare-and-swap set the lock bit. */
  datatype Cell = Cell(val: Val, version: nat, locked: bool, owner: Option<Tid>)

  ghost predicate TotalCells(m: imap<Loc, Cell>) {
    forall l: Loc :: l in m
  }

  type Cells = m: imap<Loc, Cell> | TotalCells(m) ghost witness FreshCells()

  ghost function FreshCells(): imap<Loc, Cell> {
    imap l: Loc | 0 <= l.seg :: Cell(0, 0, false, None)
  }

  /** What a transaction's client sees, in order.  `under` is a history variable of read-only reads:
      the transaction with a write version within the snapshot that held the word's lock when the
      word was copied, if there was one. */
  datatype Op =
    | Read(loc: Loc, val: Val, under: Option<Tid>)
    | Store(loc: Loc, val: Val)
    | Alloc(seg: nat)
    | Free(seg: nat)

  /** Where a transaction stands in its code; the comments cite 358982/Transaction.cpp. */
  datatype Pc =
    | Idle                                                     // client code, between operations
    | RwCheck(l: Loc)                                          // 159: load the lock word
    | RwCopy(l: Loc)                                           // 175: copy the word
    | RoCopy(l: Loc)                                           // 136: first copy
    | RoCheck(l: Loc, x: Val, under: Option<Tid>, tries: nat)  // 139: load the lock word
    | RoClock(l: Loc, tries: nat)                              // 140: load the clock
    | RoValidate(l: Loc, tries: nat, now: nat, i: nat)         // 141: recheck read i
    | RoRecopy(l: Loc, tries: nat)                             // 143-145: copy again, count
    | Locking(i: nat)                                          // 74-78: load lock word of write i
    | TryCas(i: nat, seen: nat)                                // 79: compare-and-swap
    | Tick                                                     // 90: bump the clock
    | Validating(i: nat)                                       // 98-109: recheck read i
    | Publishing(i: nat)                                       // 125: copy write i to memory
    | VersionLoad(i: nat)                                      // 126: set_version, its load
    | VersionStore(i: nat, held: bool)                         // 126: set_version, its store
    | Unlocking(i: nat, ok: bool)                              // 113-116: unlock, its load
    | UnlockStore(i: nat, seen: nat, ok: bool)                 // 116-117: unlock, its store; erase
    | Finished(ok: bool)

  const RO_RETRIES: nat := 10

  /** `ops` is a history variable, everything else is a field of the source's Transaction. */
  datatype Tx = Tx(ro: bool, rv: nat, wv: int, readSet: seq<Loc>, writeSet: seq<Write>, lockedSet: set<Loc>,
                   pc: Pc, ops: seq<Op>)

  datatype Commit = Commit(tid: Tid, writes: seq<Write>, ops: seq<Op>)

  /** `log` is a history variable: the commits whose validation succeeded, by write version. */
  datatype State = State(clock: nat, nseg: nat, cells: Cells, txs: seq<Tx>, log: map<nat, Commit>)

  ghost function Initial(): State {
    State(0, 1, FreshCells(), [], map[])
  }

  datatype Call = ReadWord(l: Loc) | WriteWord(l: Loc, x: Val) | AllocSegment | FreeSegment(seg: nat) | End

  datatype Action = Begin(ro: bool) | Invoke(t: Tid, call: Call) | Tau(t: Tid)

  /** Clients write, allocate and free in read-write transactions only (include/tm.hpp). */
  predicate Enabled(s: State, a: Action) {
    match a
    case Begin(_) => true
    case Invoke(t, c) =>
      && t < |s.txs| && s.txs[t].pc.Idle?
      && (s.txs[t].ro ==> c.ReadWord? || c.End?)
    case Tau(t) => t < |s.txs| && !s.txs[t].pc.Idle? && !s.txs[t].pc.Finished?
  }

  function Put(s: State, t: Tid, x: Tx): State
    requires t < |s.txs|
  {
    s.(txs := s.txs[t := x])
  }

  function SetCell(s: State, l: Loc, c: Cell): State {
    s.(cells := s.cells[l := c])
  }

  function NewTx(s: State, ro: bool): Tx {
    Tx(ro, s.clock, -1, [], [], {}, Idle, [])
  }

  function Do(s: State, a: Action): State
    requires Enabled(s, a)
  {
    match a
    case Begin(ro) => s.(txs := s.txs + [NewTx(s, ro)])
    case Invoke(t, c) => DoCall(s, t, c)
    case Tau(t) => DoTau(s, t)
  }

  function DoCall(s: State, t: Tid, c: Call): State
    requires Enabled(s, Invoke(t, c))
  {
    var x := s.txs[t];
    match c
    case ReadWord(l) => Put(s, t, x.(pc := if x.ro then RoCopy(l) else RwCheck(l)))
    case WriteWord(l, v) => Put(s, t, x.(writeSet := x.writeSet + [Write(l, v)], ops := x.ops + [Store(l, v)]))
    case AllocSegment => Put(s, t, x.(ops := x.ops + [Alloc(s.nseg)])).(nseg := s.nseg + 1)
    case FreeSegment(seg) => Put(s, t, x.(ops := x.ops + [Free(seg)]))
    case End => Put(s, t, x.(pc := if x.ro then Finished(true) else Locking(0)))
  }

  /** The transaction holding the word's lock with a write version at most `rv`. */
  function OldWriter(s: State, l: Loc, rv: nat): Option<Tid> {
    match s.cells[l].owner
    case None => None
    case Some(u) => if u < |s.txs| && 0 <= s.txs[u].wv <= rv then Some(u) else None
  }

  predicate UnlockedAndOld(s: State, l: Loc, rv: nat) {
    !s.cells[l].locked && s.cells[l].version <= rv
  }

  /** Validation is decided without a scan (lines 94-96). */
  predicate Skips(x: Tx) {
    x.wv == x.rv + 1
  }

  function DoTau(s: State, t: Tid): State
    requires Enabled(s, Tau(t))
  {
    match s.txs[t].pc
    case RwCheck(_) => DoRwCheck(s, t)
    case RwCopy(_) => DoRwCopy(s, t)
    case RoCopy(_) => DoRoCopy(s, t, 0)
    case RoCheck(_, _, _, _) => DoRoCheck(s, t)
    case RoClock(_, _) => DoRoClock(s, t)
    case RoValidate(_, _, _, _) => DoRoValidate(s, t)
    case RoRecopy(_, k) => DoRoCopy(s, t, k + 1)
    case Locking(_) => DoLocking(s, t)
    case TryCas(_, _) => DoTryCas(s, t)
    case Tick => DoTick(s, t)
    case Validating(_) => DoValidating(s, t)
    case Publishing(_) => DoPublishing(s, t)
    case VersionLoad(_) => DoVersionLoad(s, t)
    case VersionStore(_, _) => DoVersionStore(s, t)
    case Unlocking(_, _) => DoUnlocking(s, t)
    case UnlockStore(_, _, _) => DoUnlockStore(s, t)
    case Idle => s
    case Finished(_) => s
  }

  function DoRwCheck(s: State, t: Tid): State
    requires t < |s.txs| && s.txs[t].pc.RwCheck?
  {
    var x := s.txs[t];
    var l := x.pc.l;
    if !UnlockedAndOld(s, l, x.rv) then Put(s, t, x.(pc := Finished(false)))
    else
      var y := x.(readSet := x.readSet + [l]);
      if l in Locs(x.writeSet)
      then Put(s, t, y.(ops := x.ops + [Read(l, Overlay(x.writeSet, l, 0), None)], pc := Idle))
      else Put(s, t, y.(pc := RwCopy(l)))
  }

  function DoRwCopy(s: State, t: Tid): State
    requires t < |s.txs| && s.txs[t].pc.RwCopy?
  {
    var x := s.txs[t];
    Put(s, t, x.(ops := x.ops + [Read(x.pc.l, s.cells[x.pc.l].val, None)], pc := Idle))
  }

  /** The copy of a read-only read; `tries` copies were made before it. */
  function DoRoCopy(s: State, t: Tid, tries: nat): State
    requires t < |s.txs| && (s.txs[t].pc.RoCopy? || s.txs[t].pc.RoRecopy?)
  {
    var x := s.txs[t];
    var l := x.pc.l;
    if tries == RO_RETRIES then Put(s, t, x.(pc := Finished(false)))
    else Put(s, t, x.(pc := RoCheck(l, s.cells[l].val, OldWriter(s, l, x.rv), tries)))
  }

  function DoRoCheck(s: State, t: Tid): State
    requires t < |s.txs| && s.txs[t].pc.RoCheck?
  {
    var x := s.txs[t];
    var RoCheck(l, v, under, k) := x.pc;
    if UnlockedAndOld(s, l, x.rv)
    then Put(s, t, x.(readSet := x.readSet + [l], ops := x.ops + [Read(l, v, under)], pc := Idle))
    else Put(s, t, x.(pc := RoClock(l, k)))
  }

  function DoRoClock(s: State, t: Tid): State
    requires t < |s.txs| && s.txs[t].pc.RoClock?
  {
    var x := s.txs[t];
    Put(s, t, x.(pc := RoValidate(x.pc.l, x.pc.tries, s.clock, 0)))
  }

  function DoRoValidate(s: State, t: Tid): State
    requires t < |s.txs| && s.txs[t].pc.RoValidate?
  {
    var x := s.txs[t];
    var RoValidate(l, k, now, i) := x.pc;
    if i >= |x.readSet| then Put(s, t, x.(rv := now, pc := RoRecopy(l, k)))
    else if UnlockedAndOld(s, x.readSet[i], x.rv) then Put(s, t, x.(pc := RoValidate(l, k, now, i + 1)))
    else Put(s, t, x.(pc := Finished(false)))
  }

  function DoLocking(s: State, t: Tid): State
    requires t < |s.txs| && s.txs[t].pc.Locking?
  {
    var x := s.txs[t];
    var i := x.pc.i;
    if i >= |x.writeSet| then Put(s, t, x.(pc := Tick))
    else if x.writeSet[i].loc in x.lockedSet then Put(s, t, x.(pc := Locking(i + 1)))
    else Put(s, t, x.(pc := TryCas(i, s.cells[x.writeSet[i].loc].version)))
  }

  function DoTryCas(s: State, t: Tid): State
    requires t < |s.txs| && s.txs[t].pc.TryCas?
  {
    var x := s.txs[t];
    var TryCas(i, seen) := x.pc;
    if i >= |x.writeSet| then s
    else
      var l := x.writeSet[i].loc;
      var c := s.cells[l];
      if c.version == seen && !c.locked
      then SetCell(Put(s, t, x.(lockedSet := x.lockedSet + {l}, pc := Locking(i + 1))), l,
                   c.(locked := true, owner := Some(t)))
      else Put(s, t, x.(pc := Unlocking(0, false)))
  }

  /** The commit is decided: validation returned true. */
  function Decide(s: State, t: Tid, x: Tx): State
    requires t < |s.txs| && x.wv > 0
  {
    Put(s, t, x.(pc := Publishing(0))).(log := s.log[x.wv := Commit(t, x.writeSet, x.ops)])
  }

  function DoTick(s: State, t: Tid): State
    requires t < |s.txs| && s.txs[t].pc.Tick?
  {
    var x := s.txs[t].(wv := s.clock + 1);
    var s1 := s.(clock := s.clock + 1);
    if Skips(x) then Decide(s1, t, x) else Put(s1, t, x.(pc := Validating(0)))
  }

  function DoValidating(s: State, t: Tid): State
    requires t < |s.txs| && s.txs[t].pc.Validating?
  {
    var x := s.txs[t];
    var i := x.pc.i;
    if i >= |x.readSet| then if x.wv > 0 then Decide(s, t, x) else s
    else
      var c := s.cells[x.readSet[i]];
      if c.version <= x.rv && (x.readSet[i] in x.lockedSet || !c.locked)
      then Put(s, t, x.(pc := Validating(i + 1)))
      else Put(s, t, x.(pc := Unlocking(0, false)))
  }

  function DoPublishing(s: State, t: Tid): State
    requires t < |s.txs| && s.txs[t].pc.Publishing?
  {
    var x := s.txs[t];
    var i := x.pc.i;
    if i >= |x.writeSet| then Put(s, t, x.(pc := Unlocking(0, true)))
    else
      var l := x.writeSet[i].loc;
      SetCell(Put(s, t, x.(pc := VersionLoad(i))), l, s.cells[l].(val := x.writeSet[i].val))
  }

  function DoVersionLoad(s: State, t: Tid): State
    requires t < |s.txs| && s.txs[t].pc.VersionLoad?
  {
    var x := s.txs[t];
    var i := x.pc.i;
    if i >= |x.writeSet| then s
    else Put(s, t, x.(pc := VersionStore(i, s.cells[x.writeSet[i].loc].locked)))
  }

  function DoVersionStore(s: State, t: Tid): State
    requires t < |s.txs| && s.txs[t].pc.VersionStore?
  {
    var x := s.txs[t];
    var VersionStore(i, held) := x.pc;
    if i >= |x.writeSet| || x.wv < 0 then s
    else
      var l := x.writeSet[i].loc;
      SetCell(Put(s, t, x.(pc := Publishing(i + 1))), l, s.cells[l].(version := x.wv, locked := held))
  }

  function DoUnlocking(s: State, t: Tid): State
    requires t < |s.txs| && s.txs[t].pc.Unlocking?
  {
    var x := s.txs[t];
    var Unlocking(i, ok) := x.pc;
    if i >= |x.writeSet| then Put(s, t, x.(pc := Finished(ok)))
    else if x.writeSet[i].loc in x.lockedSet
    then Put(s, t, x.(pc := UnlockStore(i, s.cells[x.writeSet[i].loc].version, ok)))
    else Put(s, t, x.(pc := Unlocking(i + 1, ok)))
  }

  function DoUnlockStore(s: State, t: Tid): State
    requires t < |s.txs| && s.txs[t].pc.UnlockStore?
  {
    var x := s.txs[t];
    var UnlockStore(i, seen, ok) := x.pc;
    if i >= |x.writeSet| then s
    else
      var l := x.writeSet[i].loc;
      SetCell(Put(s, t, x.(lockedSet := x.lockedSet - {l}, pc := Unlocking(i + 1, ok))), l,
              s.cells[l].(version := seen, locked := false, owner := None))
  }

  ghost predicate Next(s: State, s': State) {
    exists a :: Enabled(s, a) && s' == Do(s, a)
  }

  ghost predicate StepAt(run: seq<State>, i: nat)
    requires i + 1 < |run|
  {
    Next(run[i], run[i + 1])
  }

  /** A run of the machine from the freshly created region. */
  ghost predicate IsRun(run: seq<State>) {
    && |run| > 0
    && run[0] == Initial()
    && forall i {:trigger StepAt(run, i)} :: 0 <= i < |run| - 1 ==> StepAt(run, i)
  }

  // ---- The serial memory the history explains ----

  /** The value of a word after all commits with version at most `v`, in version order. */
  ghost function At(log: map<nat, Commit>, l: Loc, v: nat): Val {
    if v == 0 then 0
    else if v in log then Overlay(log[v].writes, l, At(log, l, v - 1))
    else At(log, l, v - 1)
  }

  /** The writes a client issued, oldest first. */
  function StoresOf(ops: seq<Op>): seq<Write> {
    if ops == [] then []
    else
      var o := ops[|ops| - 1];
      var earlier := StoresOf(ops[..|ops| - 1]);
      if o.Store? then earlier + [Write(o.loc, o.val)] else earlier
  }
}
