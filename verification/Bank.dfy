/** The bank of grading/workload.hpp: a list of account segments, its conservation law and its shape,
    and what the transactions do to it. */
module Bank {
  import opened SharedMemory

  /** Accounts per segment (positive) and the balance an account starts with (not negative). */
  datatype Params = Params(perSegment: nat, initBalance: nat)

  datatype Segment = Segment(id: nat, parity: int, accounts: seq<int>)

  type Accounts = seq<Segment>

  function Sum(xs: seq<int>): int {
    if xs == [] then 0 else Sum(xs[..|xs| - 1]) + xs[|xs| - 1]
  }

  /** Number of accounts. */
  function Count(b: Accounts): nat {
    if b == [] then 0 else Count(b[..|b| - 1]) + |b[|b| - 1].accounts|
  }

  /** All balances and parities. */
  function Worth(b: Accounts): int {
    if b == [] then 0
    else Worth(b[..|b| - 1]) + b[|b| - 1].parity + Sum(b[|b| - 1].accounts)
  }

  /** All balances, segment after segment. */
  function Flat(b: Accounts): (r: seq<int>)
    ensures |r| == Count(b)
  {
    if b == [] then [] else Flat(b[..|b| - 1]) + b[|b| - 1].accounts
  }

  /** Only the last segment has room, and only the first may be empty. */
  predicate Shape(p: Params, b: Accounts) {
    && |b| > 0
    && (forall j :: 0 <= j < |b| - 1 ==> |b[j].accounts| == p.perSegment)
    && |b[|b| - 1].accounts| <= p.perSegment
    && (|b| > 1 ==> b[|b| - 1].accounts != [])
  }

  predicate NoDebt(b: Accounts) {
    forall j, i :: 0 <= j < |b| && 0 <= i < |b[j].accounts| ==> b[j].accounts[i] >= 0
  }

  /** What `n` accounts start with, added up. */
  function Stake(p: Params, n: nat): int {
    if n == 0 then 0 else Stake(p, n - 1) + p.initBalance
  }

  lemma {:induction false} StakeIsProduct(p: Params, n: nat)
    ensures Stake(p, n) == p.initBalance * n
  {
    if n > 0 { StakeIsProduct(p, n - 1); }
  }

  predicate Conserved(p: Params, b: Accounts) {
    Worth(b) == Stake(p, Count(b))
  }

  predicate Sound(p: Params, b: Accounts) {
    p.perSegment > 0 && Shape(p, b) && NoDebt(b) && Conserved(p, b)
  }

  // ---- What the transactions do ----

  /** alloc_tx (workload.hpp lines 186-226): close the last account, or open a new one. */
  predicate Closes(b: Accounts, trigger: int) {
    Count(b) > trigger && Count(b) > 2
  }

  function AfterAlloc(p: Params, b: Accounts, trigger: int, spare: nat): Accounts
    requires Sound(p, b)
  {
    var n := |b| - 1;
    var last := b[n];
    if Closes(b, trigger) then
      CloseLeavesOne(p, b);
      var m := |last.accounts| - 1;
      var parity := last.parity + last.accounts[m] - p.initBalance;
      if m > 0 then b[n := Segment(last.id, parity, last.accounts[..m])]
      else b[..n][n - 1 := b[n - 1].(parity := b[n - 1].parity + parity)]
    else if |last.accounts| < p.perSegment then b[n := last.(accounts := last.accounts + [p.initBalance])]
    else b + [Segment(spare, 0, [p.initBalance])]
  }

  /** The account count never underflows, and there is a previous segment when the last is dropped. */
  lemma CloseLeavesOne(p: Params, b: Accounts)
    requires Sound(p, b) && Count(b) > 2
    ensures |b[|b| - 1].accounts| > 0
    ensures |b[|b| - 1].accounts| == 1 ==> |b| > 1
  {
    if |b| == 1 { assert b[..0] == []; }
  }

  /** Add `d` to account `i` of segment `j`. */
  function Credit(b: Accounts, j: nat, i: nat, d: int): Accounts
    requires j < |b| && i < |b[j].accounts|
  {
    b[j := b[j].(accounts := b[j].accounts[i := b[j].accounts[i] + d])]
  }

  /** Account number `k` of the flattened bank is account `i` of segment `j`. */
  predicate IsAt(b: Accounts, k: int, j: nat, i: nat) {
    j < |b| && i < |b[j].accounts| && k == Count(b[..j]) + i
  }

  // ---- Sums ----

  lemma {:induction false} SumUpdate(xs: seq<int>, i: nat, v: int)
    requires i < |xs|
    ensures Sum(xs[i := v]) == Sum(xs) - xs[i] + v
  {
    var n := |xs| - 1;
    if i == n {
      assert xs[i := v][..n] == xs[..n];
    } else {
      SumUpdate(xs[..n], i, v);
      assert xs[i := v][..n] == xs[..n][i := v];
    }
  }

  lemma SumOne(xs: seq<int>)
    requires |xs| == 1
    ensures Sum(xs) == xs[0]
  {
    assert xs[..|xs| - 1] == [];
  }

  lemma {:induction false} CountPrefix(b: Accounts, j: nat)
    requires j < |b|
    ensures Count(b[..j]) + |b[j].accounts| <= Count(b)
    ensures Count(b[..j + 1]) == Count(b[..j]) + |b[j].accounts|
  {
    assert b[..j + 1][..j] == b[..j];
    if j == |b| - 1 {
      assert b[..j + 1] == b;
    } else {
      CountPrefix(b[..|b| - 1], j);
      assert b[..|b| - 1][..j] == b[..j];
    }
  }

  lemma {:induction false} FlatIndex(b: Accounts, k: int, j: nat, i: nat)
    requires IsAt(b, k, j, i)
    ensures 0 <= k < Count(b) && Flat(b)[k] == b[j].accounts[i]
  {
    var n := |b| - 1;
    CountPrefix(b, j);
    if j < n {
      assert b[..n][..j] == b[..j];
      FlatIndex(b[..n], k, j, i);
    }
  }

  lemma CreditSums(b: Accounts, j: nat, i: nat, d: int)
    requires j < |b| && i < |b[j].accounts|
    ensures Count(Credit(b, j, i, d)) == Count(b)
    ensures Worth(Credit(b, j, i, d)) == Worth(b) + d
  {
    CountUpdate(b, j, Credit(b, j, i, d)[j]);
    SumUpdate(b[j].accounts, i, b[j].accounts[i] + d);
  }

  lemma UpdateInSum(xs: seq<int>, ys: seq<int>, k: nat, v: int)
    requires k < |xs| + |ys|
    ensures (xs + ys)[k := v] == if k < |xs| then xs[k := v] + ys else xs + ys[k - |xs| := v]
  {
  }

  lemma CreditLast(b: Accounts, k: int, i: nat, d: int)
    requires b != [] && IsAt(b, k, |b| - 1, i) && 0 <= k < Count(b) && Flat(b)[k] == b[|b| - 1].accounts[i]
    ensures Flat(Credit(b, |b| - 1, i, d)) == Flat(b)[k := Flat(b)[k] + d]
  {
    var n := |b| - 1;
    assert Credit(b, n, i, d)[..n] == b[..n];
    UpdateInSum(Flat(b[..n]), b[n].accounts, k, Flat(b)[k] + d);
  }

  lemma FlatLast(b: Accounts)
    requires b != []
    ensures Flat(b) == Flat(b[..|b| - 1]) + b[|b| - 1].accounts
  {
  }

  lemma SumChanged(xs: seq<int>, ys: seq<int>, u: seq<int>, v: seq<int>, k: nat, d: int)
    requires k < |xs| && u == xs + ys && v == xs[k := xs[k] + d] + ys
    ensures v == u[k := u[k] + d]
  {
    UpdateInSum(xs, ys, k, xs[k] + d);
  }

  lemma CreditEarlier(b: Accounts, j: nat, i: nat, d: int)
    requires j < |b| - 1 && i < |b[j].accounts|
    ensures Flat(Credit(b, j, i, d)) == Flat(Credit(b[..|b| - 1], j, i, d)) + b[|b| - 1].accounts
  {
    var c := Credit(b, j, i, d);
    assert c[..|b| - 1] == Credit(b[..|b| - 1], j, i, d);
    FlatLast(c);
  }

  lemma {:induction false} CreditFlat(b: Accounts, k: int, j: nat, i: nat, d: int)
    requires IsAt(b, k, j, i)
    ensures 0 <= k < Count(b)
    ensures Flat(Credit(b, j, i, d)) == Flat(b)[k := Flat(b)[k] + d]
  {
    var n := |b| - 1;
    if j == n {
      FlatIndex(b, k, j, i);
      CreditLast(b, k, i, d);
    } else {
      var early := b[..n];
      assert early[..j] == b[..j];
      CreditFlat(early, k, j, i, d);
      CreditEarlier(b, j, i, d);
      FlatLast(b);
      SumChanged(Flat(early), b[n].accounts, Flat(b), Flat(Credit(b, j, i, d)), k, d);
    }
  }

  lemma {:induction false} CountUpdate(b: Accounts, j: nat, s: Segment)
    requires j < |b|
    ensures Count(b[j := s]) == Count(b) - |b[j].accounts| + |s.accounts|
    ensures Worth(b[j := s]) == Worth(b) - b[j].parity - Sum(b[j].accounts) + s.parity + Sum(s.accounts)
  {
    var n := |b| - 1;
    if j == n {
      assert b[j := s][..n] == b[..n];
    } else {
      CountUpdate(b[..n], j, s);
      assert b[j := s][..n] == b[..n][j := s];
    }
  }

  // ---- Every transaction keeps the bank sound ----

  lemma StillConserved(p: Params, b: Accounts, c: Accounts, d: int)
    requires Conserved(p, b) && -1 <= d <= 1
    requires Count(c) == Count(b) + d && Worth(c) == Worth(b) + d * p.initBalance
    ensures Conserved(p, c)
  {
    if d == 1 { assert Stake(p, Count(c)) == Stake(p, Count(c) - 1) + p.initBalance; }
    if d == -1 { assert Stake(p, Count(b)) == Stake(p, Count(b) - 1) + p.initBalance; }
  }

  lemma AllocKeepsSound(p: Params, b: Accounts, trigger: int, spare: nat)
    requires Sound(p, b)
    ensures Sound(p, AfterAlloc(p, b, trigger, spare))
    ensures Count(AfterAlloc(p, b, trigger, spare)) == Count(b) + if Count(b) > trigger && Count(b) > 2 then -1 else 1
  {
    if Closes(b, trigger) {
      CloseSums(p, b, trigger, spare);
      StillConserved(p, b, AfterAlloc(p, b, trigger, spare), -1);
    } else {
      OpenSums(p, b, trigger, spare);
      StillConserved(p, b, AfterAlloc(p, b, trigger, spare), 1);
    }
  }

  /** All balances after alloc_tx: with more accounts than the trigger, and more than two, the last account is
      gone; otherwise there is one more, with the initial balance.  No other balance has changed. */
  lemma AllocFlat(p: Params, b: Accounts, trigger: int, spare: nat)
    requires Sound(p, b)
    ensures Flat(AfterAlloc(p, b, trigger, spare)) ==
            if Count(b) > trigger && Count(b) > 2 then Flat(b)[..Count(b) - 1] else Flat(b) + [p.initBalance]
  {
    if Closes(b, trigger) { CloseFlat(p, b, trigger, spare); } else { OpenFlat(p, b, trigger, spare); }
  }

  lemma CloseFlat(p: Params, b: Accounts, trigger: int, spare: nat)
    requires Sound(p, b) && Closes(b, trigger)
    ensures Flat(AfterAlloc(p, b, trigger, spare)) == Flat(b)[..Count(b) - 1]
  {
    var n := |b| - 1;
    var c := AfterAlloc(p, b, trigger, spare);
    CloseLeavesOne(p, b);
    if |b[n].accounts| > 1 { CutFlat(b, c[n]); } else { UnlinkFlat(b, c[n - 1]); }
  }

  /** The last segment loses its last account. */
  lemma CutFlat(b: Accounts, s: Segment)
    requires b != [] && b[|b| - 1].accounts != []
    requires s.accounts == b[|b| - 1].accounts[..|b[|b| - 1].accounts| - 1]
    ensures Count(b) > 0 && Flat(b[|b| - 1 := s]) == Flat(b)[..Count(b) - 1]
  {
    var n := |b| - 1;
    var c := b[n := s];
    assert c[..n] == b[..n];
    FlatLast(b);
    FlatLast(c);
    SumCut(Flat(b[..n]), b[n].accounts, Flat(b));
  }

  /** The last segment, with one account, is dropped, and the one before it has the accounts it had. */
  lemma UnlinkFlat(b: Accounts, s: Segment)
    requires |b| > 1 && |b[|b| - 1].accounts| == 1 && s.accounts == b[|b| - 2].accounts
    ensures Count(b) > 0 && Flat(b[..|b| - 1][|b| - 2 := s]) == Flat(b)[..Count(b) - 1]
  {
    var n := |b| - 1;
    FlatLast(b);
    SumCut(Flat(b[..n]), b[n].accounts, Flat(b));
    DropFlat(b[..n], b[..n][n - 1 := s]);
  }

  /** Without its last entry. */
  lemma SumCut(xs: seq<int>, ys: seq<int>, u: seq<int>)
    requires ys != [] && u == xs + ys
    ensures u[..|u| - 1] == xs + ys[..|ys| - 1] && (|ys| == 1 ==> u[..|u| - 1] == xs)
  {
  }

  lemma DropFlat(b: Accounts, c: Accounts)
    requires |b| == |c| > 0 && c[..|c| - 1] == b[..|b| - 1] && c[|c| - 1].accounts == b[|b| - 1].accounts
    ensures Flat(c) == Flat(b)
  {
  }

  lemma OpenFlat(p: Params, b: Accounts, trigger: int, spare: nat)
    requires Sound(p, b) && !Closes(b, trigger)
    ensures Flat(AfterAlloc(p, b, trigger, spare)) == Flat(b) + [p.initBalance]
  {
    var n := |b| - 1;
    var c := AfterAlloc(p, b, trigger, spare);
    FlatLast(b);
    FlatLast(c);
    if |b[n].accounts| < p.perSegment {
      assert c[..n] == b[..n];
    } else {
      assert c[..|b|] == b;
    }
  }

  lemma CloseSums(p: Params, b: Accounts, trigger: int, spare: nat)
    requires Sound(p, b) && Closes(b, trigger)
    ensures var c := AfterAlloc(p, b, trigger, spare);
            && Shape(p, c) && NoDebt(c)
            && Count(c) == Count(b) - 1 && Worth(c) == Worth(b) - p.initBalance
  {
    var n := |b| - 1;
    var m := |b[n].accounts| - 1;
    var c := AfterAlloc(p, b, trigger, spare);
    CloseLeavesOne(p, b);
    if m > 0 {
      CountUpdate(b, n, c[n]);
    } else {
      SumOne(b[n].accounts);
      CountUpdate(b[..n], n - 1, c[n - 1]);
    }
  }

  lemma OpenSums(p: Params, b: Accounts, trigger: int, spare: nat)
    requires Sound(p, b) && !Closes(b, trigger)
    ensures var c := AfterAlloc(p, b, trigger, spare);
            && Shape(p, c) && NoDebt(c)
            && Count(c) == Count(b) + 1 && Worth(c) == Worth(b) + p.initBalance
  {
    var n := |b| - 1;
    var c := AfterAlloc(p, b, trigger, spare);
    if |b[n].accounts| < p.perSegment {
      assert c[n].accounts[..|b[n].accounts|] == b[n].accounts;
      CountUpdate(b, n, c[n]);
    } else {
      assert c[..|b|] == b;
      SumOne(c[|b|].accounts);
    }
  }

  /** short_tx (lines 232-275): one unit from an account with funds to another, or to itself. */
  lemma TransferKeepsSound(p: Params, b: Accounts, j: nat, i: nat, j': nat, i': nat)
    requires Sound(p, b) && j < |b| && i < |b[j].accounts| && j' < |b| && i' < |b[j'].accounts|
    requires b[j].accounts[i] > 0
    ensures Sound(p, Credit(Credit(b, j, i, -1), j', i', 1))
  {
    var c := Credit(b, j, i, -1);
    CreditSums(b, j, i, -1);
    CreditSums(c, j', i', 1);
    StillConserved(p, b, Credit(c, j', i', 1), 0);
  }

  /** A transfer moves one unit between the two flattened balances and changes nothing else. */
  lemma TransferFlat(b: Accounts, k: int, j: nat, i: nat, k': int, j': nat, i': nat)
    requires IsAt(b, k, j, i) && IsAt(b, k', j', i')
    ensures var c := Credit(b, j, i, -1);
            && IsAt(c, k', j', i')
            && 0 <= k < |Flat(b)| && 0 <= k' < |Flat(b)|
            && Flat(Credit(c, j', i', 1)) == Moved(Flat(b), k, k')
  {
    FlatIndex(b, k, j, i);
    FlatIndex(b, k', j', i');
    CreditKeepsAt(b, j, i, -1, k', j', i');
    CreditFlat(b, k, j, i, -1);
    SecondCredit(b, Credit(b, j, i, -1), k, k', j', i');
  }

  lemma SecondCredit(b: Accounts, c: Accounts, k: nat, k': nat, j': nat, i': nat)
    requires k < |Flat(b)| && k' < |Flat(b)| && Flat(c) == Flat(b)[k := Flat(b)[k] - 1]
    requires IsAt(c, k', j', i')
    ensures Flat(Credit(c, j', i', 1)) == Moved(Flat(b), k, k')
  {
    CreditFlat(c, k', j', i', 1);
  }

  lemma CreditKeepsAt(b: Accounts, j: nat, i: nat, d: int, k': int, j': nat, i': nat)
    requires j < |b| && i < |b[j].accounts| && IsAt(b, k', j', i')
    ensures IsAt(Credit(b, j, i, d), k', j', i')
  {
    CreditCounts(b, j, i, d, j');
  }

  /** One unit from entry `k` to entry `k'`. */
  function Moved(xs: seq<int>, k: nat, k': nat): seq<int>
    requires k < |xs| && k' < |xs|
  {
    if k == k' then xs else xs[k := xs[k] - 1][k' := xs[k'] + 1]
  }

  lemma {:induction false} CreditCounts(b: Accounts, j: nat, i: nat, d: int, j': nat)
    requires j < |b| && i < |b[j].accounts| && j' <= |b|
    ensures Count(Credit(b, j, i, d)[..j']) == Count(b[..j'])
  {
    var c := Credit(b, j, i, d);
    if j' > 0 {
      CreditCounts(b, j, i, d, j' - 1);
      assert c[..j'][..j' - 1] == c[..j' - 1] && b[..j'][..j' - 1] == b[..j' - 1];
    }
  }

  // ---- Layout in shared memory ----

  const COUNT: nat := 0
  const NEXT: nat := 1
  const PARITY: nat := 2
  const FIRST: nat := 3

  /** The segment a non-null pointer points to. */
  function Target(v: Val): nat {
    if v > 0 then v else 0
  }

  function NextOf(b: Accounts, j: nat): nat
    requires j < |b|
  {
    if j + 1 < |b| then b[j + 1].id else 0
  }

  ghost predicate SegmentIn(m: Memory, s: Segment, next: nat) {
    && m[Loc(s.id, COUNT)] == |s.accounts|
    && m[Loc(s.id, NEXT)] == next
    && m[Loc(s.id, PARITY)] == s.parity
    && forall i :: 0 <= i < |s.accounts| ==> m[Loc(s.id, FIRST + i)] == s.accounts[i]
  }

  /** Segments are distinct, and the first is segment 0. */
  predicate Ids(b: Accounts) {
    && |b| > 0
    && b[0].id == 0
    && (forall j :: 0 < j < |b| ==> b[j].id > 0)
    && forall j, k :: 0 <= j < k < |b| ==> b[j].id != b[k].id
  }

  /** The list of segments that starts at segment 0 spells the bank. */
  ghost predicate Stored(m: Memory, b: Accounts) {
    Ids(b) && forall j {:trigger SegmentAt(m, b, j)} :: 0 <= j < |b| ==> SegmentAt(m, b, j)
  }

  ghost predicate SegmentAt(m: Memory, b: Accounts, j: nat)
    requires j < |b|
  {
    SegmentIn(m, b[j], NextOf(b, j))
  }

  /** Segments never allocated hold zeros, and the bank uses allocated ones only. */
  ghost predicate SpareIsZero(m: Memory, b: Accounts, used: set<nat>) {
    && 0 in used
    && (forall j :: 0 <= j < |b| ==> b[j].id in used)
    && forall l: Loc :: l.seg !in used ==> m[l] == 0
  }

  // ---- Updates of a stored bank ----

  lemma OtherSegment(m: Memory, m': Memory, s: Segment, next: nat)
    requires SegmentIn(m, s, next)
    requires forall l: Loc :: l.seg == s.id ==> m'[l] == m[l]
    ensures SegmentIn(m', s, next)
  {
    forall i | 0 <= i < |s.accounts| ensures m'[Loc(s.id, FIRST + i)] == s.accounts[i] {
      assert m[Loc(s.id, FIRST + i)] == s.accounts[i];
    }
  }

  /** Only segment `j` changes, and not its place in the list. */
  lemma ReplaceStored(m: Memory, m': Memory, b: Accounts, used: set<nat>, j: nat, s: Segment)
    requires Stored(m, b) && SpareIsZero(m, b, used) && j < |b| && s.id == b[j].id
    requires SegmentIn(m', s, NextOf(b, j))
    requires forall l: Loc :: l.seg != s.id ==> m'[l] == m[l]
    ensures Stored(m', b[j := s]) && SpareIsZero(m', b[j := s], used)
  {
    var c := b[j := s];
    forall k | 0 <= k < |c| ensures SegmentAt(m', c, k) {
      assert SegmentAt(m, b, k);
      if k != j { OtherSegment(m, m', b[k], NextOf(b, k)); }
      assert NextOf(c, k) == NextOf(b, k);
    }
  }

  lemma CreditStored(m: Memory, b: Accounts, used: set<nat>, j: nat, i: nat, d: int)
    requires Stored(m, b) && SpareIsZero(m, b, used) && j < |b| && i < |b[j].accounts|
    ensures m[Loc(b[j].id, FIRST + i)] == b[j].accounts[i]
    ensures var m' := m[Loc(b[j].id, FIRST + i) := b[j].accounts[i] + d];
            Stored(m', Credit(b, j, i, d)) && SpareIsZero(m', Credit(b, j, i, d), used)
  {
    var m' := m[Loc(b[j].id, FIRST + i) := b[j].accounts[i] + d];
    assert SegmentAt(m, b, j);
    ReplaceStored(m, m', b, used, j, Credit(b, j, i, d)[j]);
  }

  lemma CloseStored(p: Params, m: Memory, b: Accounts, used: set<nat>, trigger: int, parity: int)
    requires Sound(p, b) && Stored(m, b) && SpareIsZero(m, b, used) && Closes(b, trigger)
    requires |b[|b| - 1].accounts| > 1
    requires var last := b[|b| - 1];
             parity == last.parity + last.accounts[|last.accounts| - 1] - p.initBalance
    ensures var last := b[|b| - 1];
            var m' := m[Loc(last.id, COUNT) := |last.accounts| - 1][Loc(last.id, PARITY) := parity];
            var c := AfterAlloc(p, b, trigger, 0);
            Stored(m', c) && SpareIsZero(m', c, used)
  {
    var n := |b| - 1;
    var m' := m[Loc(b[n].id, COUNT) := |b[n].accounts| - 1][Loc(b[n].id, PARITY) := parity];
    assert SegmentAt(m, b, n);
    ReplaceStored(m, m', b, used, n, Segment(b[n].id, parity, b[n].accounts[..|b[n].accounts| - 1]));
  }

  lemma UnlinkStored(p: Params, m: Memory, b: Accounts, used: set<nat>, trigger: int, parity: int)
    requires Sound(p, b) && Stored(m, b) && SpareIsZero(m, b, used) && Closes(b, trigger)
    requires |b| > 1 && |b[|b| - 1].accounts| == 1
    requires parity == b[|b| - 1].parity + b[|b| - 1].accounts[0] - p.initBalance
    ensures var prev := b[|b| - 2];
            var m' := m[Loc(prev.id, NEXT) := 0][Loc(prev.id, PARITY) := prev.parity + parity];
            var c := AfterAlloc(p, b, trigger, 0);
            Stored(m', c) && SpareIsZero(m', c, used)
  {
    var n := |b| - 1;
    var m1 := m[Loc(b[n - 1].id, NEXT) := 0];
    DropLast(m, b, used);
    var m' := m1[Loc(b[n - 1].id, PARITY) := b[n - 1].parity + parity];
    assert SegmentAt(m1, b[..n], n - 1);
    ReplaceStored(m1, m', b[..n], used, n - 1, b[n - 1].(parity := b[n - 1].parity + parity));
  }

  lemma DropLast(m: Memory, b: Accounts, used: set<nat>)
    requires Stored(m, b) && SpareIsZero(m, b, used) && |b| > 1
    ensures var m' := m[Loc(b[|b| - 2].id, NEXT) := 0];
            Stored(m', b[..|b| - 1]) && SpareIsZero(m', b[..|b| - 1], used)
  {
    var n := |b| - 1;
    var c := b[..n];
    var m' := m[Loc(b[n - 1].id, NEXT) := 0];
    forall k | 0 <= k < |c| ensures SegmentAt(m', c, k) {
      assert SegmentAt(m, b, k);
      if k < n - 1 { OtherSegment(m, m', b[k], NextOf(b, k)); }
    }
  }

  lemma OpenStored(p: Params, m: Memory, b: Accounts, used: set<nat>, trigger: int)
    requires Sound(p, b) && Stored(m, b) && SpareIsZero(m, b, used) && !Closes(b, trigger)
    requires |b[|b| - 1].accounts| < p.perSegment
    ensures var last := b[|b| - 1];
            var n := |last.accounts|;
            var m' := m[Loc(last.id, FIRST + n) := p.initBalance][Loc(last.id, COUNT) := n + 1];
            var c := AfterAlloc(p, b, trigger, 0);
            Stored(m', c) && SpareIsZero(m', c, used)
  {
    var j := |b| - 1;
    var n := |b[j].accounts|;
    var m' := m[Loc(b[j].id, FIRST + n) := p.initBalance][Loc(b[j].id, COUNT) := n + 1];
    assert SegmentAt(m, b, j);
    ReplaceStored(m, m', b, used, j, b[j].(accounts := b[j].accounts + [p.initBalance]));
  }

  lemma AppendStored(p: Params, m: Memory, b: Accounts, used: set<nat>, trigger: int, spare: nat)
    requires Sound(p, b) && Stored(m, b) && SpareIsZero(m, b, used) && !Closes(b, trigger)
    requires |b[|b| - 1].accounts| == p.perSegment && spare > 0 && spare !in used
    ensures var last := b[|b| - 1];
            var m' := m[Loc(last.id, NEXT) := spare][Loc(spare, COUNT) := 1][Loc(spare, FIRST) := p.initBalance];
            var c := AfterAlloc(p, b, trigger, spare);
            Stored(m', c) && SpareIsZero(m', c, used + {spare})
  {
    var last := b[|b| - 1];
    var m' := m[Loc(last.id, NEXT) := spare][Loc(spare, COUNT) := 1][Loc(spare, FIRST) := p.initBalance];
    var c := AfterAlloc(p, b, trigger, spare);
    assert c == b + [Segment(spare, 0, [p.initBalance])];
    forall k | 0 <= k < |c| ensures SegmentAt(m', c, k) {
      if k < |b| {
        assert SegmentAt(m, b, k);
        if k < |b| - 1 { OtherSegment(m, m', b[k], NextOf(b, k)); }
      }
    }
  }
}
