/** The transaction bodies of grading/workload.hpp as programs: one local state per pending operation on
    shared memory.  A body knows memory only through the values its reads return, whatever they are. */
module BankProgram {
  import opened Options
  import opened SharedMemory
  import opened Stm
  import opened StmTheorems
  import opened Bank

  /** What a body asks for next. */
  datatype Cmd = Rd(l: Loc) | Wr(l: Loc, v: Val) | New | Drop(seg: nat) | Return(result: bool) | Crash

  datatype Local =
    // long_tx, lines 161-182
    | LongCount(count: nat, sum: int, seg: nat)
    | LongParity(count: nat, sum: int, seg: nat, n: nat)
    | LongAccount(count: nat, sum: int, seg: nat, n: nat, i: nat)
    | LongNext(count: nat, sum: int, seg: nat)
    // alloc_tx, lines 186-226
    | AllocCount(trigger: int, count: nat, prev: Option<nat>, seg: nat)
    | AllocNext(trigger: int, count: nat, prev: Option<nat>, seg: nat, n: nat)
    | CloseParity(prev: Option<nat>, seg: nat, left: int)
    | CloseAccount(prev: Option<nat>, seg: nat, left: int, parity: int)
    | UnlinkNext(before: nat, parity: int)
    | UnlinkFree(before: nat, parity: int, gone: nat)
    | UnlinkNull(before: nat, parity: int)
    | UnlinkParity(before: nat, parity: int)
    | OpenSegment(seg: nat)
    // short_tx, lines 232-275
    | ShortCount(send: nat, recv: nat, sender: Option<Loc>, recver: Option<Loc>, seg: nat)
    | ShortNext(send: nat, recv: nat, sender: Option<Loc>, recver: Option<Loc>, seg: nat)
    | ShortSender(s: Loc, r: Loc)
    | ShortWrite(s: Loc, r: Loc, funds: int)
    | ShortRecver(r: Loc)
    // init, lines 280-294: its check; its first transaction is an `Emit`
    | CheckFirst
    // only these writes and the return are left
    | Emit(ws: seq<Write>, result: bool)
    // an account before the first, or a null previous segment
    | Crashed

  function Index(v: Val): nat {
    if v < 0 then 0 else v
  }

  function Account(seg: nat, i: nat): Loc {
    Loc(seg, FIRST + i)
  }

  function Pending(b: Local): Cmd {
    match b
    case LongCount(_, _, seg) => Rd(Loc(seg, COUNT))
    case LongParity(_, _, seg, _) => Rd(Loc(seg, PARITY))
    case LongAccount(_, _, seg, _, i) => Rd(Account(seg, i))
    case LongNext(_, _, seg) => Rd(Loc(seg, NEXT))
    case AllocCount(_, _, _, seg) => Rd(Loc(seg, COUNT))
    case AllocNext(_, _, _, seg, _) => Rd(Loc(seg, NEXT))
    case CloseParity(_, seg, _) => Rd(Loc(seg, PARITY))
    case CloseAccount(_, seg, left, _) => if left < 0 then Crash else Rd(Account(seg, left))
    case UnlinkNext(before, _) => Rd(Loc(before, NEXT))
    case UnlinkFree(_, _, gone) => Drop(gone)
    case UnlinkNull(before, _) => Wr(Loc(before, NEXT), 0)
    case UnlinkParity(before, _) => Rd(Loc(before, PARITY))
    case OpenSegment(_) => New
    case ShortCount(_, _, _, _, seg) => Rd(Loc(seg, COUNT))
    case ShortNext(_, _, _, _, seg) => Rd(Loc(seg, NEXT))
    case ShortSender(s, _) => Rd(s)
    case ShortWrite(s, _, funds) => Wr(s, funds - 1)
    case ShortRecver(r) => Rd(r)
    case CheckFirst => Rd(Account(0, 0))
    case Emit(ws, result) => if ws == [] then Return(result) else Wr(ws[0].loc, ws[0].val)
    case Crashed => Crash
  }

  /** The local state after the pending command returned `v` (a read its value, `New` the new segment). */
  function Feed(p: Params, b: Local, v: Val): Local {
    match b
    case LongCount(count, sum, seg) => LongParity(count + Index(v), sum, seg, Index(v))
    case LongParity(count, sum, seg, n) => LongLoop(count, sum + v, seg, n, 0)
    case LongAccount(count, sum, seg, n, i) =>
      if v < 0 then Emit([], false) else LongLoop(count, sum + v, seg, n, i + 1)
    case LongNext(count, sum, seg) =>
      if v == 0 then Emit([], sum == p.initBalance * count) else LongCount(count, sum, Target(v))
    case AllocCount(trigger, count, prev, seg) => AllocNext(trigger, count + Index(v), prev, seg, Index(v))
    case AllocNext(trigger, count, prev, seg, n) =>
      if v != 0 then AllocCount(trigger, count, Some(seg), Target(v))
      else if count > trigger && count > 2 then CloseParity(prev, seg, n - 1)
      else if n < p.perSegment then
        Emit([Write(Account(seg, n), p.initBalance), Write(Loc(seg, COUNT), n + 1)], true)
      else OpenSegment(seg)
    case CloseParity(prev, seg, left) => CloseAccount(prev, seg, left, v)
    case CloseAccount(prev, seg, left, parity) =>
      var parity' := parity + v - p.initBalance;
      if left > 0 then Emit([Write(Loc(seg, COUNT), left), Write(Loc(seg, PARITY), parity')], true)
      else if prev == None then Crashed
      else UnlinkNext(prev.value, parity')
    case UnlinkNext(before, parity) => UnlinkFree(before, parity, Target(v))
    case UnlinkFree(before, parity, _) => UnlinkNull(before, parity)
    case UnlinkNull(before, parity) => UnlinkParity(before, parity)
    case UnlinkParity(before, parity) => Emit([Write(Loc(before, PARITY), v + parity)], true)
    case OpenSegment(seg) =>
      Emit([Write(Loc(seg, NEXT), v), Write(Loc(Target(v), COUNT), 1), Write(Account(Target(v), 0), p.initBalance)], true)
    case ShortCount(_, _, _, _, _) => FeedShort(b, Index(v))
    case ShortNext(send, recv, sender, recver, seg) =>
      if v == 0 then Emit([], false) else ShortCount(send, recv, sender, recver, Target(v))
    case ShortSender(s, r) => if v > 0 then ShortWrite(s, r, v) else Emit([], true)
    case ShortWrite(_, r, _) => ShortRecver(r)
    case ShortRecver(r) => Emit([Write(r, v + 1)], true)
    case CheckFirst => Emit([], v == p.initBalance)
    case Emit(ws, result) => if ws == [] then b else Emit(ws[1..], result)
    case Crashed => b
  }

  function LongLoop(count: nat, sum: int, seg: nat, n: nat, i: nat): Local {
    if i < n then LongAccount(count, sum, seg, n, i) else LongNext(count, sum, seg)
  }

  /** Lines 242-259: look for either account in a segment of `n` accounts. */
  function FeedShort(b: Local, n: nat): Local
    requires b.ShortCount?
  {
    var (send, sender) := Seek(b.send, b.sender, b.seg, n);
    if b.sender == None && sender.Some? && b.recver.Some? then ShortSender(sender.value, b.recver.value)
    else
      var (recv, recver) := Seek(b.recv, b.recver, b.seg, n);
      if b.recver == None && recver.Some? && sender.Some? then ShortSender(sender.value, recver.value)
      else ShortNext(send, recv, sender, recver, b.seg)
  }

  function Seek(k: nat, found: Option<Loc>, seg: nat, n: nat): (nat, Option<Loc>) {
    if found.Some? then (k, found)
    else if k < n then (k, Some(Account(seg, k)))
    else (k - n, None)
  }

  function InitBody(p: Params): Local {
    Emit([Write(Loc(0, COUNT), p.perSegment)] + Opening(p, p.perSegment), true)
  }

  /** The writes of init's loop, first `n` accounts. */
  function Opening(p: Params, n: nat): (ws: seq<Write>)
    ensures |ws| == n && forall i :: 0 <= i < n ==> ws[i] == Write(Account(0, i), p.initBalance)
  {
    if n == 0 then [] else Opening(p, n - 1) + [Write(Account(0, n - 1), p.initBalance)]
  }

  // ---- A body and the trace of a transaction ----

  predicate Answers(c: Cmd, o: Op) {
    match c
    case Rd(l) => o.Read? && o.loc == l
    case Wr(l, v) => o == Store(l, v)
    case New => o.Alloc?
    case Drop(seg) => o == Free(seg)
    case Return(_) => false
    case Crash => false
  }

  function Answer(o: Op): Val {
    match o
    case Read(_, v, _) => v
    case Store(_, _) => 0
    case Alloc(seg) => seg
    case Free(_) => 0
  }

  function After(p: Params, b: Local, ops: seq<Op>): Local {
    if ops == [] then b else Feed(p, After(p, b, ops[..|ops| - 1]), Answer(ops[|ops| - 1]))
  }

  /** Every operation of the trace is the one the body asked for, given the earlier answers. */
  predicate Follows(p: Params, b: Local, ops: seq<Op>) {
    ops == [] || (Follows(p, b, ops[..|ops| - 1])
                  && Answers(Pending(After(p, b, ops[..|ops| - 1])), ops[|ops| - 1]))
  }

  /** The body ran to its return. */
  predicate Completes(p: Params, b: Local, ops: seq<Op>) {
    Follows(p, b, ops) && Pending(After(p, b, ops)).Return?
  }

  function Result(p: Params, b: Local, ops: seq<Op>): bool
    requires Completes(p, b, ops)
  {
    Pending(After(p, b, ops)).result
  }

  predicate BankBody(b: Local) {
    || b == LongCount(0, 0, 0)
    || (b.AllocCount? && b == AllocCount(b.trigger, 0, None, 0))
    || (b.ShortCount? && b == ShortCount(b.send, b.recv, None, None, 0))
  }

  function AllocIds(ops: seq<Op>): set<nat> {
    if ops == [] then {}
    else
      var o := ops[|ops| - 1];
      AllocIds(ops[..|ops| - 1]) + if o.Alloc? then {o.seg} else {}
  }

  /** Every allocation of the trace returned a segment never returned before. */
  predicate FreshAllocs(ops: seq<Op>, used: set<nat>) {
    forall k :: 0 <= k < |ops| && ops[k].Alloc? ==> ops[k].seg > 0 && ops[k].seg !in used + AllocIds(ops[..k])
  }

  // ---- What a body does to a stored bank, run alone ----

  /** The bank after a whole body, and what the body returned. */
  ghost predicate Outcome(p: Params, start: Local, bank: Accounts, bank': Accounts, result: bool)
    requires Sound(p, bank)
  {
    && (start.LongCount? ==> bank' == bank && result)
    && (start.AllocCount? ==>
          && (exists spare :: bank' == AfterAlloc(p, bank, start.trigger, spare))
          && Flat(bank') == if Count(bank) > start.trigger && Count(bank) > 2 then Flat(bank)[..Count(bank) - 1]
                            else Flat(bank) + [p.initBalance])
    && (start.ShortCount? ==>
          if start.send < Count(bank) && start.recv < Count(bank)
          then result && Transferred(bank, bank', start.send, start.recv)
          else !result && bank' == bank)
  }

  /** One unit has moved if there were funds; segments, counts and parities are as before. */
  ghost predicate Transferred(b: Accounts, b': Accounts, k: nat, k': nat)
    requires k < Count(b) && k' < Count(b)
  {
    && SameFrame(b, b')
    && Flat(b') == if Flat(b)[k] > 0 then Moved(Flat(b), k, k') else Flat(b)
  }

  predicate SameFrame(b: Accounts, b': Accounts) {
    && |b'| == |b|
    && forall j :: 0 <= j < |b| ==>
         b'[j].id == b[j].id && b'[j].parity == b[j].parity && |b'[j].accounts| == |b[j].accounts|
  }

  ghost predicate Reached(p: Params, start: Local, bank: Accounts, m: Memory, used: set<nat>, result: bool, bank': Accounts)
    requires Sound(p, bank)
  {
    && Stored(m, bank') && SpareIsZero(m, bank', used) && Sound(p, bank')
    && Outcome(p, start, bank, bank', result)
  }

  ghost predicate Reaching(p: Params, start: Local, bank: Accounts, m: Memory, used: set<nat>, result: bool)
    requires Sound(p, bank)
  {
    exists bank' :: Reached(p, start, bank, m, used, result, bank')
  }

  predicate AtSegment(bank: Accounts, j: nat, seg: nat) {
    j < |bank| && seg == bank[j].id
  }

  predicate PrevIs(bank: Accounts, j: nat, prev: Option<nat>)
    requires j < |bank|
  {
    prev == if j == 0 then None else Some(bank[j - 1].id)
  }

  ghost predicate IsAccount(bank: Accounts, k: int, l: Loc) {
    exists j: nat, i: nat :: IsAt(bank, k, j, i) && l == Account(bank[j].id, i)
  }

  /** The search for account `k` has passed the first `j` segments. */
  ghost predicate Sought(bank: Accounts, j: nat, k: nat, rest: nat, found: Option<Loc>)
    requires j <= |bank|
  {
    match found
    case None => rest == k - Count(bank[..j])
    case Some(l) => IsAccount(bank, k, l)
  }

  ghost predicate Closing(bank: Accounts, start: Local, prev: Option<nat>, seg: nat, left: int) {
    && start.AllocCount? && Closes(bank, start.trigger) && |bank| > 0
    && AtSegment(bank, |bank| - 1, seg) && PrevIs(bank, |bank| - 1, prev)
    && left == |bank[|bank| - 1].accounts| - 1
  }

  ghost predicate Unlinking(p: Params, bank: Accounts, start: Local, before: nat, parity: int) {
    && start.AllocCount? && Closes(bank, start.trigger) && |bank| > 1
    && |bank[|bank| - 1].accounts| == 1
    && before == bank[|bank| - 2].id
    && parity == bank[|bank| - 1].parity + bank[|bank| - 1].accounts[0] - p.initBalance
  }

  /** Where a body started on `bank`, stored in `m0`, stands in local state `b` with memory `m`. */
  ghost predicate Progress(p: Params, start: Local, bank: Accounts, m0: Memory, b: Local, m: Memory, used: set<nat>)
    requires Sound(p, bank)
  {
    if b.Emit? then Reaching(p, start, bank, WriteBack(m, b.ws), used, b.result)
    else if b.UnlinkParity? then
      m == m0[Loc(b.before, NEXT) := 0] && Unlinking(p, bank, start, b.before, b.parity)
    else if b.ShortRecver? then
      start.ShortCount? && IsAccount(bank, start.recv, b.r) && Debited(bank, start.send, m0, m)
    else m == m0 && Walking(p, start, bank, b)
  }

  /** Account `k` had funds and has lost one unit. */
  ghost predicate Debited(bank: Accounts, k: int, m0: Memory, m: Memory) {
    exists j: nat, i: nat :: IsAt(bank, k, j, i) && bank[j].accounts[i] > 0
      && m == m0[Account(bank[j].id, i) := bank[j].accounts[i] - 1]
  }

  /** The states in which the body has not written yet. */
  ghost predicate Walking(p: Params, start: Local, bank: Accounts, b: Local) {
    if start.LongCount? then LongWalk(bank, b)
    else if start.AllocCount? then AllocWalk(p, start, bank, b)
    else start.ShortCount? && ShortWalk(start, bank, b)
  }

  ghost predicate LongWalk(bank: Accounts, b: Local) {
    match b
    case LongCount(count, sum, seg) =>
      exists j: nat :: AtSegment(bank, j, seg) && count == Count(bank[..j]) && sum == Worth(bank[..j])
    case LongParity(count, sum, seg, n) =>
      exists j: nat :: AtSegment(bank, j, seg) && n == |bank[j].accounts| && count == Count(bank[..j]) + n
        && sum == Worth(bank[..j])
    case LongAccount(count, sum, seg, n, i) =>
      exists j: nat :: AtSegment(bank, j, seg) && n == |bank[j].accounts| && count == Count(bank[..j]) + n
        && i < n && sum == Worth(bank[..j]) + bank[j].parity + Sum(bank[j].accounts[..i])
    case LongNext(count, sum, seg) =>
      exists j: nat :: AtSegment(bank, j, seg) && count == Count(bank[..j + 1]) && sum == Worth(bank[..j + 1])
    case _ => false
  }

  ghost predicate AllocWalk(p: Params, start: Local, bank: Accounts, b: Local)
    requires start.AllocCount?
  {
    match b
    case AllocCount(trigger, count, prev, seg) =>
      trigger == start.trigger &&
      exists j: nat :: AtSegment(bank, j, seg) && count == Count(bank[..j]) && PrevIs(bank, j, prev)
    case AllocNext(trigger, count, prev, seg, n) =>
      trigger == start.trigger &&
      exists j: nat :: AtSegment(bank, j, seg) && n == |bank[j].accounts| && count == Count(bank[..j + 1])
        && PrevIs(bank, j, prev)
    case CloseParity(prev, seg, left) => Closing(bank, start, prev, seg, left)
    case CloseAccount(prev, seg, left, parity) =>
      Closing(bank, start, prev, seg, left) && parity == bank[|bank| - 1].parity
    case UnlinkNext(before, parity) => Unlinking(p, bank, start, before, parity)
    case UnlinkFree(before, parity, gone) => Unlinking(p, bank, start, before, parity) && gone == bank[|bank| - 1].id
    case UnlinkNull(before, parity) => Unlinking(p, bank, start, before, parity)
    case OpenSegment(seg) =>
      && !Closes(bank, start.trigger) && |bank| > 0
      && AtSegment(bank, |bank| - 1, seg) && |bank[|bank| - 1].accounts| == p.perSegment
    case _ => false
  }

  ghost predicate ShortWalk(start: Local, bank: Accounts, b: Local)
    requires start.ShortCount?
  {
    match b
    case ShortCount(send, recv, sender, recver, seg) =>
      (sender == None || recver == None) &&
      exists j: nat :: AtSegment(bank, j, seg)
        && Sought(bank, j, start.send, send, sender) && Sought(bank, j, start.recv, recv, recver)
    case ShortNext(send, recv, sender, recver, seg) =>
      (sender == None || recver == None) &&
      exists j: nat :: AtSegment(bank, j, seg)
        && Sought(bank, j + 1, start.send, send, sender) && Sought(bank, j + 1, start.recv, recv, recver)
    case ShortSender(s, r) => IsAccount(bank, start.send, s) && IsAccount(bank, start.recv, r)
    case ShortWrite(s, r, funds) =>
      && funds > 0 && IsAccount(bank, start.recv, r)
      && exists j: nat, i: nat :: IsAt(bank, start.send, j, i) && s == Account(bank[j].id, i) && funds == bank[j].accounts[i]
    case _ => false
  }
}
