/** A body run alone on a stored bank does what it promises, step by step. */
module BankSteps {
  import opened Options
  import opened SharedMemory
  import opened Stm
  import opened StmTheorems
  import opened Bank
  import opened BankProgram

  // ---- The tail of a body ----

  lemma WriteBackOne(m: Memory, w: Write)
    ensures WriteBack(m, [w]) == m[w.loc := w.val]
  {
  }

  lemma WriteBackTwo(m: Memory, v: Write, w: Write)
    ensures WriteBack(m, [v, w]) == m[v.loc := v.val][w.loc := w.val]
  {
    assert [v, w][1..] == [w];
    WriteBackOne(m[v.loc := v.val], w);
  }

  lemma WriteBackThree(m: Memory, u: Write, v: Write, w: Write)
    ensures WriteBack(m, [u, v, w]) == m[u.loc := u.val][v.loc := v.val][w.loc := w.val]
  {
    assert [u, v, w][1..] == [v, w];
    WriteBackTwo(m[u.loc := u.val], v, w);
  }

  // ---- One step of each body ----

  /** The memory after an operation. */
  ghost function Effects(m: Memory, o: Op): Memory {
    if o.Store? then m[o.loc := o.val] else m
  }

  function Grown(used: set<nat>, o: Op): set<nat> {
    if o.Alloc? then used + {o.seg} else used
  }

  ghost predicate Ready(p: Params, bank: Accounts, m0: Memory, used: set<nat>) {
    Sound(p, bank) && Stored(m0, bank) && SpareIsZero(m0, bank, used)
  }

  /** What the operation `o`, answered by memory `m`, must satisfy. */
  ghost predicate Served(o: Op, m: Memory, used: set<nat>) {
    && (o.Read? ==> o.val == m[o.loc])
    && (o.Alloc? ==> o.seg > 0 && o.seg !in used)
  }

  lemma StoredSegment(m: Memory, b: Accounts, j: nat)
    requires Stored(m, b) && j < |b|
    ensures SegmentIn(m, b[j], NextOf(b, j))
  {
    assert SegmentAt(m, b, j);
  }

  lemma LongCountStep(p: Params, start: Local, bank: Accounts, m: Memory, b: Local, v: Val)
    requires Stored(m, bank) && b.LongCount? && start.LongCount? && Walking(p, start, bank, b)
    requires v == m[Pending(b).l]
    ensures Walking(p, start, bank, Feed(p, b, v))
  {
    var j: nat :| AtSegment(bank, j, b.seg) && b.count == Count(bank[..j]) && b.sum == Worth(bank[..j]);
    StoredSegment(m, bank, j);
    assert AtSegment(bank, j, b.seg);
  }

  lemma LongParityStep(p: Params, start: Local, bank: Accounts, m: Memory, b: Local, v: Val)
    requires Stored(m, bank) && b.LongParity? && start.LongCount? && Walking(p, start, bank, b)
    requires v == m[Pending(b).l]
    ensures Walking(p, start, bank, Feed(p, b, v))
  {
    var j: nat :| AtSegment(bank, j, b.seg) && b.n == |bank[j].accounts| && b.count == Count(bank[..j]) + b.n
      && b.sum == Worth(bank[..j]);
    StoredSegment(m, bank, j);
    LongLooped(p, start, bank, j, 0);
  }

  /** No balance of a sound bank is negative, so the walk does not stop here. */
  lemma LongAccountStep(p: Params, start: Local, bank: Accounts, m: Memory, b: Local, v: Val)
    requires NoDebt(bank) && Stored(m, bank) && b.LongAccount? && start.LongCount? && Walking(p, start, bank, b)
    requires v == m[Pending(b).l]
    ensures Walking(p, start, bank, Feed(p, b, v))
  {
    var j: nat :| AtSegment(bank, j, b.seg) && b.n == |bank[j].accounts| && b.count == Count(bank[..j]) + b.n
      && b.i < b.n && b.sum == Worth(bank[..j]) + bank[j].parity + Sum(bank[j].accounts[..b.i]);
    LongAccountAt(p, start, bank, m, b, v, j, bank[j].accounts);
  }

  lemma LongAccountAt(p: Params, start: Local, bank: Accounts, m: Memory, b: Local, v: Val, j: nat, xs: seq<int>)
    requires NoDebt(bank) && Stored(m, bank) && b.LongAccount? && start.LongCount? && j < |bank| && xs == bank[j].accounts
    requires b.seg == bank[j].id && b.n == |xs| && b.count == Count(bank[..j]) + b.n && b.i < b.n
    requires b.sum == Worth(bank[..j]) + bank[j].parity + Sum(xs[..b.i]) && v == m[Account(b.seg, b.i)]
    ensures Walking(p, start, bank, Feed(p, b, v))
  {
    StoredSegment(m, bank, j);
    assert v == xs[b.i] >= 0;
    SumPrefix(xs, b.i);
    LongLooped(p, start, bank, j, b.i + 1);
  }

  lemma SumPrefix(xs: seq<int>, i: nat)
    requires i < |xs|
    ensures Sum(xs[..i + 1]) == Sum(xs[..i]) + xs[i]
  {
    assert xs[..i + 1][..i] == xs[..i];
  }

  lemma LongNextStep(p: Params, start: Local, bank: Accounts, m: Memory, b: Local, v: Val)
    requires Sound(p, bank) && Stored(m, bank) && b.LongNext? && start.LongCount? && Walking(p, start, bank, b)
    requires v == m[Pending(b).l]
    ensures if Feed(p, b, v).Emit? then Feed(p, b, v) == Emit([], true) else Walking(p, start, bank, Feed(p, b, v))
  {
    var j: nat :| AtSegment(bank, j, b.seg) && b.count == Count(bank[..j + 1]) && b.sum == Worth(bank[..j + 1]);
    StoredSegment(m, bank, j);
    if j + 1 < |bank| {
      assert AtSegment(bank, j + 1, bank[j + 1].id);
    } else {
      assert bank[..j + 1] == bank;
      StakeIsProduct(p, Count(bank));
    }
  }

  /** Line 171: the loop over the accounts of segment `j` stands at account `i`. */
  lemma LongLooped(p: Params, start: Local, bank: Accounts, j: nat, i: nat)
    requires start.LongCount? && j < |bank| && i <= |bank[j].accounts|
    ensures Walking(p, start, bank,
                    LongLoop(Count(bank[..j]) + |bank[j].accounts|,
                             Worth(bank[..j]) + bank[j].parity + Sum(bank[j].accounts[..i]),
                             bank[j].id, |bank[j].accounts|, i))
  {
    assert AtSegment(bank, j, bank[j].id);
    if i == |bank[j].accounts| {
      assert bank[j].accounts[..i] == bank[j].accounts;
      assert bank[..j + 1][..j] == bank[..j];
    }
  }

  lemma AllocCountStep(p: Params, start: Local, bank: Accounts, m: Memory, b: Local, v: Val)
    requires Stored(m, bank) && b.AllocCount? && start.AllocCount? && Walking(p, start, bank, b)
    requires v == m[Pending(b).l]
    ensures Walking(p, start, bank, Feed(p, b, v))
  {
    var j: nat :| AtSegment(bank, j, b.seg) && b.count == Count(bank[..j]) && PrevIs(bank, j, b.prev);
    StoredSegment(m, bank, j);
    CountPrefix(bank, j);
    assert AtSegment(bank, j, b.seg);
  }

  /** At the last segment: close an account, open one in place, or ask for a new segment. */
  lemma AllocNextStep(p: Params, start: Local, bank: Accounts, m: Memory, b: Local, v: Val, used: set<nat>)
    requires Ready(p, bank, m, used) && b.AllocNext? && start.AllocCount? && Walking(p, start, bank, b)
    requires v == m[Pending(b).l]
    ensures var b' := Feed(p, b, v);
            if b'.Emit? then b'.result && Reaching(p, start, bank, WriteBack(m, b'.ws), used, true)
            else Walking(p, start, bank, b')
  {
    var j: nat :| AtSegment(bank, j, b.seg) && b.n == |bank[j].accounts| && b.count == Count(bank[..j + 1])
      && PrevIs(bank, j, b.prev);
    StoredSegment(m, bank, j);
    if v != 0 {
      assert AtSegment(bank, j + 1, bank[j + 1].id);
    } else {
      assert j == |bank| - 1;
      assert bank[..j + 1] == bank;
      AllocAtLast(p, start, bank, m, b, used);
    }
  }

  lemma AllocAtLast(p: Params, start: Local, bank: Accounts, m: Memory, b: Local, used: set<nat>)
    requires Ready(p, bank, m, used) && b.AllocNext? && start.AllocCount? && b.trigger == start.trigger
    requires AtSegment(bank, |bank| - 1, b.seg) && b.n == |bank[|bank| - 1].accounts| && b.count == Count(bank)
    requires PrevIs(bank, |bank| - 1, b.prev)
    ensures var b' := Feed(p, b, 0);
            if b'.Emit? then b'.result && Reaching(p, start, bank, WriteBack(m, b'.ws), used, true)
            else Walking(p, start, bank, b')
  {
    if Feed(p, b, 0).Emit? { OpensInPlace(p, start, bank, m, used); }
  }

  lemma AllocReaches(p: Params, start: Local, bank: Accounts, m: Memory, used: set<nat>, spare: nat)
    requires Sound(p, bank) && start.AllocCount?
    requires Stored(m, AfterAlloc(p, bank, start.trigger, spare)) && SpareIsZero(m, AfterAlloc(p, bank, start.trigger, spare), used)
    ensures Reaching(p, start, bank, m, used, true)
  {
    AllocKeepsSound(p, bank, start.trigger, spare);
    AllocFlat(p, bank, start.trigger, spare);
    assert Reached(p, start, bank, m, used, true, AfterAlloc(p, bank, start.trigger, spare));
  }

  lemma OpensInPlace(p: Params, start: Local, bank: Accounts, m: Memory, used: set<nat>)
    requires Ready(p, bank, m, used) && start.AllocCount? && !Closes(bank, start.trigger)
    requires |bank[|bank| - 1].accounts| < p.perSegment
    ensures var last := bank[|bank| - 1];
            var n := |last.accounts|;
            Reaching(p, start, bank,
                     WriteBack(m, [Write(Account(last.id, n), p.initBalance), Write(Loc(last.id, COUNT), n + 1)]),
                     used, true)
  {
    var last := bank[|bank| - 1];
    var n := |last.accounts|;
    OpenStored(p, m, bank, used, start.trigger);
    WriteBackTwo(m, Write(Account(last.id, n), p.initBalance), Write(Loc(last.id, COUNT), n + 1));
    AllocReaches(p, start, bank, WriteBack(m, [Write(Account(last.id, n), p.initBalance), Write(Loc(last.id, COUNT), n + 1)]), used, 0);
  }

  lemma OpenSegmentStep(p: Params, start: Local, bank: Accounts, m: Memory, b: Local, spare: nat, used: set<nat>)
    requires Ready(p, bank, m, used) && b.OpenSegment? && start.AllocCount? && Walking(p, start, bank, b)
    requires spare > 0 && spare !in used
    ensures var b' := Feed(p, b, spare);
            b'.Emit? && b'.result && Reaching(p, start, bank, WriteBack(m, b'.ws), used + {spare}, true)
  {
    var ws := Feed(p, b, spare).ws;
    AppendStored(p, m, bank, used, start.trigger, spare);
    WriteBackThree(m, ws[0], ws[1], ws[2]);
    AllocReaches(p, start, bank, WriteBack(m, ws), used + {spare}, spare);
  }

  lemma CloseParityStep(p: Params, start: Local, bank: Accounts, m: Memory, b: Local, v: Val)
    requires Sound(p, bank) && Stored(m, bank) && b.CloseParity? && start.AllocCount? && Walking(p, start, bank, b)
    requires v == m[Pending(b).l]
    ensures Walking(p, start, bank, Feed(p, b, v))
  {
    StoredSegment(m, bank, |bank| - 1);
  }

  /** The account to close exists, and if its segment is dropped there is a previous one. */
  lemma CloseAccountStep(p: Params, start: Local, bank: Accounts, m: Memory, b: Local, v: Val, used: set<nat>)
    requires Ready(p, bank, m, used) && b.CloseAccount? && start.AllocCount? && Walking(p, start, bank, b)
    requires b.left >= 0 && v == m[Pending(b).l]
    ensures var b' := Feed(p, b, v);
            if b'.Emit? then b'.result && Reaching(p, start, bank, WriteBack(m, b'.ws), used, true)
            else Walking(p, start, bank, b')
  {
    var last := bank[|bank| - 1];
    StoredSegment(m, bank, |bank| - 1);
    CloseLeavesOne(p, bank);
    assert v == last.accounts[b.left];
    if b.left > 0 {
      var ws := Feed(p, b, v).ws;
      CloseStored(p, m, bank, used, start.trigger, b.parity + v - p.initBalance);
      WriteBackTwo(m, ws[0], ws[1]);
      AllocReaches(p, start, bank, WriteBack(m, ws), used, 0);
    }
  }

  lemma UnlinkNextStep(p: Params, start: Local, bank: Accounts, m: Memory, b: Local, v: Val)
    requires Sound(p, bank) && Stored(m, bank) && b.UnlinkNext? && start.AllocCount? && Walking(p, start, bank, b)
    requires v == m[Pending(b).l]
    ensures Walking(p, start, bank, Feed(p, b, v))
  {
    StoredSegment(m, bank, |bank| - 2);
  }

  lemma UnlinkParityStep(p: Params, start: Local, bank: Accounts, m0: Memory, b: Local, v: Val, used: set<nat>)
    requires Ready(p, bank, m0, used) && b.UnlinkParity?
    requires Unlinking(p, bank, start, b.before, b.parity)
    requires v == m0[Loc(b.before, NEXT) := 0][Pending(b).l]
    ensures var b' := Feed(p, b, v);
            b'.Emit? && b'.result
            && Reaching(p, start, bank, WriteBack(m0[Loc(b.before, NEXT) := 0], b'.ws), used, true)
  {
    var m := m0[Loc(b.before, NEXT) := 0];
    var ws := Feed(p, b, v).ws;
    StoredSegment(m0, bank, |bank| - 2);
    UnlinkStored(p, m0, bank, used, start.trigger, b.parity);
    WriteBackOne(m, ws[0]);
    AllocReaches(p, start, bank, WriteBack(m, ws), used, 0);
  }

  // ---- short_tx ----

  lemma SeekStep(bank: Accounts, j: nat, k: nat, rest: nat, found: Option<Loc>)
    requires j < |bank| && Sought(bank, j, k, rest, found)
    ensures var (rest', found') := Seek(rest, found, bank[j].id, |bank[j].accounts|);
            Sought(bank, j + 1, k, rest', found')
  {
    CountPrefix(bank, j);
    if found == None && rest < |bank[j].accounts| {
      assert IsAt(bank, k, j, rest);
    }
  }

  lemma ShortCountStep(p: Params, start: Local, bank: Accounts, m: Memory, b: Local, v: Val)
    requires Stored(m, bank) && b.ShortCount? && start.ShortCount? && Walking(p, start, bank, b)
    requires v == m[Pending(b).l]
    ensures Walking(p, start, bank, Feed(p, b, v))
  {
    var j: nat :| AtSegment(bank, j, b.seg)
      && Sought(bank, j, start.send, b.send, b.sender) && Sought(bank, j, start.recv, b.recv, b.recver);
    StoredSegment(m, bank, j);
    SeekStep(bank, j, start.send, b.send, b.sender);
    SeekStep(bank, j, start.recv, b.recv, b.recver);
    assert AtSegment(bank, j, b.seg);
  }

  /** Past the last segment with an account still missing, that account does not exist. */
  lemma ShortNextStep(p: Params, start: Local, bank: Accounts, m: Memory, b: Local, v: Val, used: set<nat>)
    requires Ready(p, bank, m, used) && b.ShortNext? && start.ShortCount? && Walking(p, start, bank, b)
    requires v == m[Pending(b).l]
    ensures var b' := Feed(p, b, v);
            if b'.Emit? then b'.ws == [] && !b'.result && Reaching(p, start, bank, m, used, false)
            else Walking(p, start, bank, b')
  {
    var j: nat :| AtSegment(bank, j, b.seg)
      && Sought(bank, j + 1, start.send, b.send, b.sender) && Sought(bank, j + 1, start.recv, b.recv, b.recver);
    StoredSegment(m, bank, j);
    if j + 1 < |bank| {
      assert AtSegment(bank, j + 1, bank[j + 1].id);
    } else {
      assert bank[..j + 1] == bank;
      assert Reached(p, start, bank, m, used, false, bank);
    }
  }

  lemma ShortSenderStep(p: Params, start: Local, bank: Accounts, m: Memory, b: Local, v: Val, used: set<nat>)
    requires Ready(p, bank, m, used) && b.ShortSender? && start.ShortCount? && Walking(p, start, bank, b)
    requires v == m[Pending(b).l]
    ensures var b' := Feed(p, b, v);
            if b'.Emit? then b'.ws == [] && b'.result && Reaching(p, start, bank, m, used, true)
            else Walking(p, start, bank, b')
  {
    var j: nat, i: nat :| IsAt(bank, start.send, j, i) && b.s == Account(bank[j].id, i);
    var j': nat, i': nat :| IsAt(bank, start.recv, j', i') && b.r == Account(bank[j'].id, i');
    StoredSegment(m, bank, j);
    FlatIndex(bank, start.send, j, i);
    FlatIndex(bank, start.recv, j', i');
    if v <= 0 {
      assert Transferred(bank, bank, start.send, start.recv);
      assert Reached(p, start, bank, m, used, true, bank);
    } else {
      assert IsAt(bank, start.send, j, i) && b.s == Account(bank[j].id, i) && v == bank[j].accounts[i];
    }
  }

  lemma ShortRecverStep(p: Params, start: Local, bank: Accounts, m0: Memory, m: Memory, r: Loc, used: set<nat>)
    requires Ready(p, bank, m0, used) && start.ShortCount?
    requires Debited(bank, start.send, m0, m) && IsAccount(bank, start.recv, r)
    ensures Reaching(p, start, bank, WriteBack(m, [Write(r, m[r] + 1)]), used, true)
  {
    var j: nat, i: nat :| IsAt(bank, start.send, j, i) && bank[j].accounts[i] > 0
      && m == m0[Account(bank[j].id, i) := bank[j].accounts[i] - 1];
    var j': nat, i': nat :| IsAt(bank, start.recv, j', i') && r == Account(bank[j'].id, i');
    Transfers(p, start, bank, m0, m, r, used, j, i, j', i');
  }

  lemma Transfers(p: Params, start: Local, b: Accounts, m0: Memory, m: Memory, r: Loc, used: set<nat>,
                  j: nat, i: nat, j': nat, i': nat)
    requires Ready(p, b, m0, used) && start.ShortCount?
    requires IsAt(b, start.send, j, i) && b[j].accounts[i] > 0 && IsAt(b, start.recv, j', i')
    requires m == m0[Account(b[j].id, i) := b[j].accounts[i] - 1] && r == Account(b[j'].id, i')
    ensures Reaching(p, start, b, WriteBack(m, [Write(r, m[r] + 1)]), used, true)
  {
    CreditBoth(m0, b, used, j, i, j', i');
    WriteBackOne(m, Write(r, m[r] + 1));
    Transferring(p, start, b, j, i, j', i', m[r := m[r] + 1], used, Credit(Credit(b, j, i, -1), j', i', 1));
  }

  lemma Transferring(p: Params, start: Local, b: Accounts, j: nat, i: nat, j': nat, i': nat, m: Memory, used: set<nat>,
                     d: Accounts)
    requires Sound(p, b) && start.ShortCount?
    requires IsAt(b, start.send, j, i) && b[j].accounts[i] > 0 && IsAt(b, start.recv, j', i')
    requires d == Credit(Credit(b, j, i, -1), j', i', 1) && Stored(m, d) && SpareIsZero(m, d, used)
    ensures Reaching(p, start, b, m, used, true)
  {
    TransferKeepsSound(p, b, j, i, j', i');
    TransferDone(b, start.send, j, i, start.recv, j', i');
    assert Reached(p, start, b, m, used, true, d);
  }

  lemma CreditBoth(m0: Memory, b: Accounts, used: set<nat>, j: nat, i: nat, j': nat, i': nat)
    requires Stored(m0, b) && SpareIsZero(m0, b, used)
    requires j < |b| && i < |b[j].accounts| && j' < |b| && i' < |b[j'].accounts|
    ensures var m, r := m0[Account(b[j].id, i) := b[j].accounts[i] - 1], Account(b[j'].id, i');
            var d := Credit(Credit(b, j, i, -1), j', i', 1);
            Stored(m[r := m[r] + 1], d) && SpareIsZero(m[r := m[r] + 1], d, used)
  {
    CreditStored(m0, b, used, j, i, -1);
    CreditStored(m0[Account(b[j].id, i) := b[j].accounts[i] - 1], Credit(b, j, i, -1), used, j', i', 1);
  }

  lemma TransferDone(b: Accounts, k: nat, j: nat, i: nat, k': nat, j': nat, i': nat)
    requires IsAt(b, k, j, i) && IsAt(b, k', j', i') && b[j].accounts[i] > 0
    ensures k < Count(b) && k' < Count(b)
    ensures Transferred(b, Credit(Credit(b, j, i, -1), j', i', 1), k, k')
  {
    FlatIndex(b, k, j, i);
    TransferFlat(b, k, j, i, k', j', i');
  }

  // ---- All steps ----

  /** A body that has not written stands where `Walking` says, or has its tail fixed. */
  ghost predicate Onwards(p: Params, start: Local, bank: Accounts, m: Memory, b: Local, used: set<nat>)
    requires Sound(p, bank)
  {
    if b.Emit? then Reaching(p, start, bank, WriteBack(m, b.ws), used, b.result) else Walking(p, start, bank, b)
  }

  lemma OnwardsIsProgress(p: Params, start: Local, bank: Accounts, m: Memory, b: Local, used: set<nat>)
    requires Sound(p, bank) && Onwards(p, start, bank, m, b, used)
    ensures Progress(p, start, bank, m, b, m, used)
  {
  }

  lemma LongRead(p: Params, start: Local, bank: Accounts, m: Memory, b: Local, v: Val, used: set<nat>)
    requires Ready(p, bank, m, used) && Walking(p, start, bank, b) && start.LongCount?
    requires Pending(b).Rd? && v == m[Pending(b).l]
    ensures Onwards(p, start, bank, m, Feed(p, b, v), used)
  {
    match b
    case LongCount(_, _, _) => LongCountStep(p, start, bank, m, b, v);
    case LongParity(_, _, _, _) => LongParityStep(p, start, bank, m, b, v);
    case LongAccount(_, _, _, _, _) => LongAccountStep(p, start, bank, m, b, v);
    case LongNext(_, _, _) =>
      LongNextStep(p, start, bank, m, b, v);
      assert Reached(p, start, bank, WriteBack(m, []), used, true, bank);
  }

  lemma AllocRead(p: Params, start: Local, bank: Accounts, m: Memory, b: Local, v: Val, used: set<nat>)
    requires Ready(p, bank, m, used) && Walking(p, start, bank, b) && start.AllocCount?
    requires Pending(b).Rd? && v == m[Pending(b).l]
    ensures Onwards(p, start, bank, m, Feed(p, b, v), used)
  {
    match b
    case AllocCount(_, _, _, _) => AllocCountStep(p, start, bank, m, b, v);
    case AllocNext(_, _, _, _, _) => AllocNextStep(p, start, bank, m, b, v, used);
    case CloseParity(_, _, _) => CloseParityStep(p, start, bank, m, b, v);
    case CloseAccount(_, _, _, _) => CloseAccountStep(p, start, bank, m, b, v, used);
    case UnlinkNext(_, _) => UnlinkNextStep(p, start, bank, m, b, v);
  }

  lemma ShortRead(p: Params, start: Local, bank: Accounts, m: Memory, b: Local, v: Val, used: set<nat>)
    requires Ready(p, bank, m, used) && Walking(p, start, bank, b) && start.ShortCount?
    requires Pending(b).Rd? && v == m[Pending(b).l]
    ensures Onwards(p, start, bank, m, Feed(p, b, v), used)
  {
    match b
    case ShortCount(_, _, _, _, _) => ShortCountStep(p, start, bank, m, b, v);
    case ShortNext(_, _, _, _, _) => ShortNextStep(p, start, bank, m, b, v, used);
    case ShortSender(_, _) => ShortSenderStep(p, start, bank, m, b, v, used);
  }

  lemma WalkingStart(p: Params, start: Local, bank: Accounts, b: Local)
    requires Sound(p, bank) && Walking(p, start, bank, b)
    ensures start.LongCount? || start.AllocCount? || start.ShortCount?
    ensures !b.Emit? && !b.UnlinkParity? && !b.ShortRecver? && !b.Crashed?
    ensures Pending(b).Rd? || b.UnlinkFree? || b.UnlinkNull? || b.OpenSegment? || b.ShortWrite?
  {
    if b.CloseAccount? { CloseLeavesOne(p, bank); }
  }

  lemma WalkingStep(p: Params, start: Local, bank: Accounts, m: Memory, b: Local, o: Op, used: set<nat>)
    requires Ready(p, bank, m, used) && Walking(p, start, bank, b)
    requires Answers(Pending(b), o) && Served(o, m, used)
    ensures Progress(p, start, bank, m, Feed(p, b, Answer(o)), Effects(m, o), Grown(used, o))
  {
    WalkingStart(p, start, bank, b);
    if Pending(b).Rd? {
      if start.LongCount? { LongRead(p, start, bank, m, b, Answer(o), used); }
      if start.AllocCount? { AllocRead(p, start, bank, m, b, Answer(o), used); }
      if start.ShortCount? { ShortRead(p, start, bank, m, b, Answer(o), used); }
      OnwardsIsProgress(p, start, bank, m, Feed(p, b, Answer(o)), used);
    } else if b.OpenSegment? {
      OpenSegmentStep(p, start, bank, m, b, o.seg, used);
    } else if b.UnlinkFree? {
      assert Walking(p, start, bank, Feed(p, b, Answer(o)));
    } else if b.ShortWrite? {
      FirstWrite(p, start, bank, m, b, o, used);
    }
  }

  lemma FirstWrite(p: Params, start: Local, bank: Accounts, m: Memory, b: Local, o: Op, used: set<nat>)
    requires Sound(p, bank) && b.ShortWrite? && start.ShortCount? && Walking(p, start, bank, b) && Answers(Pending(b), o)
    ensures Progress(p, start, bank, m, Feed(p, b, Answer(o)), Effects(m, o), used)
  {
    var j: nat, i: nat :| IsAt(bank, start.send, j, i) && b.s == Account(bank[j].id, i) && b.funds == bank[j].accounts[i];
    assert IsAt(bank, start.send, j, i) && bank[j].accounts[i] > 0
      && Effects(m, o) == m[Account(bank[j].id, i) := bank[j].accounts[i] - 1];
  }

  lemma EmitStep(p: Params, start: Local, bank: Accounts, m0: Memory, b: Local, m: Memory, o: Op, used: set<nat>)
    requires Sound(p, bank) && b.Emit? && Reaching(p, start, bank, WriteBack(m, b.ws), used, b.result)
    requires Answers(Pending(b), o)
    ensures Progress(p, start, bank, m0, Feed(p, b, Answer(o)), Effects(m, o), used)
  {
  }

  lemma BodyStep(p: Params, start: Local, bank: Accounts, m0: Memory, b: Local, m: Memory, o: Op, used: set<nat>)
    requires Ready(p, bank, m0, used) && Progress(p, start, bank, m0, b, m, used)
    requires Answers(Pending(b), o) && Served(o, m, used)
    ensures Progress(p, start, bank, m0, Feed(p, b, Answer(o)), Effects(m, o), Grown(used, o))
  {
    if b.Emit? {
      EmitStep(p, start, bank, m0, b, m, o, used);
    } else if b.UnlinkParity? {
      UnlinkParityStep(p, start, bank, m0, b, Answer(o), used);
    } else if b.ShortRecver? {
      ShortRecverStep(p, start, bank, m0, m, b.r, used);
    } else {
      WalkingStep(p, start, bank, m0, b, o, used);
    }
  }

  // ---- Whole bodies ----

  lemma LegalPrefix(ops: seq<Op>, m: Memory)
    requires ops != [] && Legal(ops, m)
    ensures Legal(ops[..|ops| - 1], m)
    ensures var o := ops[|ops| - 1]; o.Read? ==> o.val == RunOps(ops[..|ops| - 1], m)[o.loc]
  {
    var n := |ops| - 1;
    forall k | 0 <= k < n && ops[k].Read? ensures ops[..n][k].val == RunOps(ops[..n][..k], m)[ops[..n][k].loc] {
      assert ops[..n][..k] == ops[..k];
    }
  }

  lemma FreshPrefix(ops: seq<Op>, used: set<nat>)
    requires ops != [] && FreshAllocs(ops, used)
    ensures FreshAllocs(ops[..|ops| - 1], used)
  {
    var n := |ops| - 1;
    forall k | 0 <= k < n && ops[..n][k].Alloc?
      ensures ops[..n][k].seg > 0 && ops[..n][k].seg !in used + AllocIds(ops[..n][..k])
    {
      assert ops[..n][..k] == ops[..k];
    }
  }

  /** A body whose reads are served by a stored bank stands where its progress says. */
  lemma {:induction false} BodyProgress(p: Params, start: Local, bank: Accounts, m0: Memory, used: set<nat>, ops: seq<Op>)
    requires Ready(p, bank, m0, used) && BankBody(start)
    requires Follows(p, start, ops) && Legal(ops, m0) && FreshAllocs(ops, used)
    ensures Progress(p, start, bank, m0, After(p, start, ops), RunOps(ops, m0), used + AllocIds(ops))
    ensures SpareIsZero(m0, bank, used + AllocIds(ops))
  {
    if ops == [] {
      assert used + AllocIds(ops) == used;
      BodyStart(p, start, bank);
    } else {
      var n := |ops| - 1;
      LegalPrefix(ops, m0);
      FreshPrefix(ops, used);
      BodyProgress(p, start, bank, m0, used, ops[..n]);
      OneMore(p, start, m0, used, ops);
      BodyStep(p, start, bank, m0, After(p, start, ops[..n]), RunOps(ops[..n], m0), ops[n], used + AllocIds(ops[..n]));
    }
  }

  /** The last operation of a trace. */
  lemma OneMore(p: Params, start: Local, m0: Memory, used: set<nat>, ops: seq<Op>)
    requires ops != [] && Follows(p, start, ops) && Legal(ops, m0) && FreshAllocs(ops, used)
    ensures var o, before := ops[|ops| - 1], ops[..|ops| - 1];
            && Follows(p, start, before)
            && Answers(Pending(After(p, start, before)), o)
            && Served(o, RunOps(before, m0), used + AllocIds(before))
            && After(p, start, ops) == Feed(p, After(p, start, before), Answer(o))
            && RunOps(ops, m0) == Effects(RunOps(before, m0), o)
            && used + AllocIds(ops) == Grown(used + AllocIds(before), o)
  {
  }

  lemma BodyStart(p: Params, start: Local, bank: Accounts)
    requires Sound(p, bank) && Ids(bank) && BankBody(start)
    ensures Walking(p, start, bank, start) && !start.Emit? && !start.UnlinkParity? && !start.ShortRecver?
  {
    assert bank[..0] == [];
    assert AtSegment(bank, 0, 0);
  }

  /** A whole body, run alone on a stored sound bank, never crashes and leaves a stored sound bank, as
      promised for its kind. */
  lemma BodyOutcome(p: Params, start: Local, bank: Accounts, m0: Memory, used: set<nat>, ops: seq<Op>)
      returns (bank': Accounts)
    requires Ready(p, bank, m0, used) && BankBody(start)
    requires Completes(p, start, ops) && Legal(ops, m0) && FreshAllocs(ops, used)
    ensures Ready(p, bank', RunOps(ops, m0), used + AllocIds(ops))
    ensures Outcome(p, start, bank, bank', Result(p, start, ops))
  {
    BodyProgress(p, start, bank, m0, used, ops);
    var b := After(p, start, ops);
    ReturnIsEmit(b);
    bank' :| Reached(p, start, bank, WriteBack(RunOps(ops, m0), b.ws), used + AllocIds(ops), b.result, bank');
  }

  lemma ReturnIsEmit(b: Local)
    requires Pending(b).Return?
    ensures b.Emit? && b.ws == [] && b.result == Pending(b).result
  {
  }

  /** The account count never underflows and a null segment is never followed. */
  lemma BodyNeverCrashes(p: Params, start: Local, bank: Accounts, m0: Memory, used: set<nat>, ops: seq<Op>)
    requires Ready(p, bank, m0, used) && BankBody(start)
    requires Follows(p, start, ops) && Legal(ops, m0) && FreshAllocs(ops, used)
    ensures Pending(After(p, start, ops)) != Crash
  {
    BodyProgress(p, start, bank, m0, used, ops);
    var b := After(p, start, ops);
    if !b.Emit? && !b.UnlinkParity? && !b.ShortRecver? { WalkingStart(p, start, bank, b); }
  }
}
