/** The bounded buffer of sync-examples/procon4.c: one producer, one consumer, a lock with a condition
    variable.  Any number of rounds and any positive buffer size; each action is one step, and a waiting
    thread may also wake up for no reason, as condition variables allow. */
module BoundedBuffer {
  import opened Patience

  datatype Who = Producer | Consumer

  datatype Holder = Nobody | HeldBy(who: Who)

  /** Where a thread stands in its round; the comments cite procon4.c, producer and consumer. */
  datatype Pc =
    | Acquire  // 38, 63: lock_acquire
    | Test     // 40, 65: may it go on?  if not, 41, 66: lock_wait releases the lock and sleeps
    | Asleep   // inside lock_wait
    | Woken    // inside lock_wait, to take the lock again
    | Work     // 50-52, 69: fill or empty the slot
    | Bump     // 53, 70: produced_until++, consumed_until++
    | Release  // 54, 71: lock_release
    | Wake     // 55, 72: lock_wake_up
    | Finished

  datatype Thread = Thread(pc: Pc, r: nat)

  datatype State = State(runs: nat, lock: Holder, buffer: seq<int>, producedUntil: int, consumedUntil: int,
                         produced: seq<int>, consumed: seq<int>, p: Thread, c: Thread)

  function Started(runs: nat): Thread {
    Thread(if runs == 0 then Finished else Acquire, 0)
  }

  function Initial(runs: nat, buffer: seq<int>): State {
    State(runs, Nobody, buffer, 0, 0, [], [], Started(runs), Started(runs))
  }

  /** `item` is what the producer draws (line 51). */
  datatype Action = Step(who: Who, item: int) | Spurious(who: Who)

  function Get(s: State, who: Who): Thread {
    if who == Producer then s.p else s.c
  }

  function Put(s: State, who: Who, x: Thread): State {
    if who == Producer then s.(p := x) else s.(c := x)
  }

  function Other(who: Who): Who {
    if who == Producer then Consumer else Producer
  }

  predicate Enabled(s: State, a: Action) {
    match a
    case Step(who, _) => !Get(s, who).pc.Finished?
    case Spurious(who) => Get(s, who).pc.Asleep?
  }

  predicate MayGoOn(s: State, who: Who) {
    if who == Producer then s.consumedUntil + |s.buffer| > s.p.r else s.producedUntil > s.c.r
  }

  function Do(s: State, a: Action): State
    requires |s.buffer| > 0
  {
    match a
    case Step(who, item) => DoStep(s, who, item)
    case Spurious(who) => Put(s, who, Get(s, who).(pc := Woken))
  }

  function DoStep(s: State, who: Who, item: int): State
    requires |s.buffer| > 0
  {
    var x := Get(s, who);
    match x.pc
    case Acquire => if s.lock == Nobody then Put(s, who, x.(pc := Test)).(lock := HeldBy(who)) else s
    case Test =>
      if MayGoOn(s, who) then Put(s, who, x.(pc := Work))
      else Put(s, who, x.(pc := Asleep)).(lock := Nobody)
    case Asleep => s
    case Woken => if s.lock == Nobody then Put(s, who, x.(pc := Test)).(lock := HeldBy(who)) else s
    case Work =>
      var slot := x.r % |s.buffer|;
      if who == Producer
      then Put(s, who, x.(pc := Bump)).(produced := s.produced + [item], buffer := s.buffer[slot := item])
      else Put(s, who, x.(pc := Bump)).(consumed := s.consumed + [s.buffer[slot]])
    case Bump =>
      if who == Producer then Put(s, who, x.(pc := Release)).(producedUntil := s.producedUntil + 1)
      else Put(s, who, x.(pc := Release)).(consumedUntil := s.consumedUntil + 1)
    case Release => Put(s, who, x.(pc := Wake)).(lock := Nobody)
    case Wake =>
      var y := Get(s, Other(who));
      var s1 := if y.pc.Asleep? then Put(s, Other(who), y.(pc := Woken)) else s;
      Put(s1, who, Thread(if x.r + 1 < s.runs then Acquire else Finished, x.r + 1))
    case Finished => s
  }

  /** A run together with the action of each of its steps. */
  ghost predicate IsTrace(run: seq<State>, acts: seq<Action>) {
    && |run| == |acts| + 1 && |run[0].buffer| > 0
    && run[0] == Initial(run[0].runs, run[0].buffer)
    && forall k {:trigger StepAt(run, acts, k)} :: 0 <= k < |acts| ==> StepAt(run, acts, k)
  }

  ghost predicate StepAt(run: seq<State>, acts: seq<Action>, k: nat)
    requires k < |acts| && k + 1 < |run|
  {
    |run[k].buffer| > 0 && Enabled(run[k], acts[k]) && run[k + 1] == Do(run[k], acts[k])
  }

  // ---- Invariant ----

  predicate Holds(x: Thread) {
    x.pc.Test? || x.pc.Work? || x.pc.Bump? || x.pc.Release?
  }

  /** Past its work in this round. */
  predicate Worked(x: Thread) {
    x.pc.Bump? || x.pc.Release? || x.pc.Wake?
  }

  /** Past its increment, and yet to wake up the other thread. */
  predicate Owes(x: Thread) {
    x.pc.Release? || x.pc.Wake?
  }

  predicate ThreadFits(s: State, who: Who) {
    var x := Get(s, who);
    && (if x.pc.Finished? then x.r == s.runs else x.r < s.runs)
    && (Holds(x) <==> s.lock == HeldBy(who))
    && (x.pc.Work? || x.pc.Bump? ==> MayGoOn(s, who))
    && (x.pc.Asleep? ==> !MayGoOn(s, who) || Owes(Get(s, Other(who))))
  }

  predicate CountsFit(s: State) {
    && |s.produced| == s.p.r + (if Worked(s.p) then 1 else 0)
    && |s.consumed| == s.c.r + (if Worked(s.c) then 1 else 0)
    && s.producedUntil == s.p.r + (if Owes(s.p) then 1 else 0)
    && s.consumedUntil == s.c.r + (if Owes(s.c) then 1 else 0)
    && s.consumedUntil <= s.producedUntil <= s.consumedUntil + |s.buffer|
    && |s.consumed| <= |s.produced| <= s.consumedUntil + |s.buffer|
  }

  predicate DataFit(s: State) {
    && s.consumed <= s.produced
    && forall k :: |s.consumed| <= k < |s.produced| ==> InSlot(s, k)
  }

  predicate InSlot(s: State, k: nat) {
    |s.buffer| > 0 && k < |s.produced| && s.buffer[k % |s.buffer|] == s.produced[k]
  }

  predicate Inv(s: State) {
    |s.buffer| > 0 && Timing(s) && DataFit(s)
  }

  /** Different rounds that use the same slot are at least a whole buffer apart. */
  lemma SameSlot(k: nat, r: nat, n: nat)
    requires 0 < n && k < r && k % n == r % n
    ensures k + n <= r
  {
    var laps := r / n - k / n;
    assert r - k == n * laps;
    Laps(n, laps);
  }

  lemma Laps(n: nat, laps: int)
    ensures if laps <= 0 then n * laps <= 0 else n * laps >= n
  {
  }

  lemma ProducerWorks(s: State, item: int)
    requires Inv(s) && s.p.pc.Work?
    ensures Inv(DoStep(s, Producer, item))
  {
    var s' := DoStep(s, Producer, item);
    var r := |s.produced|;
    forall k | |s'.consumed| <= k < |s'.produced| ensures InSlot(s', k) {
      if k < r {
        assert InSlot(s, k);
        if k % |s.buffer| == r % |s.buffer| { SameSlot(k, r, |s.buffer|); }
      }
    }
  }

  lemma ConsumerWorks(s: State, item: int)
    requires Inv(s) && s.c.pc.Work?
    ensures Inv(DoStep(s, Consumer, item))
  {
    var s' := DoStep(s, Consumer, item);
    assert InSlot(s, s.c.r);
    forall k | |s'.consumed| <= k < |s'.produced| ensures InSlot(s', k) { assert InSlot(s, k); }
  }

  lemma DoInv(s: State, a: Action)
    requires Inv(s) && Enabled(s, a)
    ensures Inv(Do(s, a))
  {
    if a.Step? && Get(s, a.who).pc.Work? {
      if a.who == Producer { ProducerWorks(s, a.item); } else { ConsumerWorks(s, a.item); }
    } else {
      DataKept(s, a);
      TimingKept(s, a);
    }
  }

  lemma DataKept(s: State, a: Action)
    requires |s.buffer| > 0 && DataFit(s) && Enabled(s, a) && !Get(s, a.who).pc.Work?
    ensures DataFit(Do(s, a)) && Do(s, a).buffer == s.buffer
  {
    var s' := Do(s, a);
    forall k | |s'.consumed| <= k < |s'.produced| ensures InSlot(s', k) { assert InSlot(s, k); }
  }

  predicate Timing(s: State) {
    ThreadFits(s, Producer) && ThreadFits(s, Consumer) && CountsFit(s)
  }

  lemma TimingKept(s: State, a: Action)
    requires |s.buffer| > 0 && Timing(s) && Enabled(s, a) && !Get(s, a.who).pc.Work?
    ensures Timing(Do(s, a))
  {
    OwnTiming(s, a);
    OtherTiming(s, a);
    if a.who == Producer { ProducerCounts(s, a); } else { ConsumerCounts(s, a); }
  }

  lemma OwnTiming(s: State, a: Action)
    requires |s.buffer| > 0 && Timing(s) && Enabled(s, a) && !Get(s, a.who).pc.Work?
    ensures ThreadFits(Do(s, a), a.who)
  {
  }

  lemma OtherTiming(s: State, a: Action)
    requires |s.buffer| > 0 && Timing(s) && Enabled(s, a) && !Get(s, a.who).pc.Work?
    ensures ThreadFits(Do(s, a), Other(a.who))
  {
  }

  lemma ProducerCounts(s: State, a: Action)
    requires |s.buffer| > 0 && CountsFit(s) && Enabled(s, a) && !s.p.pc.Work? && a.who == Producer
    requires s.p.pc.Bump? ==> MayGoOn(s, Producer)
    ensures CountsFit(Do(s, a))
  {
  }

  lemma ConsumerCounts(s: State, a: Action)
    requires |s.buffer| > 0 && CountsFit(s) && Enabled(s, a) && !s.c.pc.Work? && a.who == Consumer
    requires s.c.pc.Bump? ==> MayGoOn(s, Consumer)
    ensures CountsFit(Do(s, a))
  {
  }

  lemma DoFrame(s: State, a: Action)
    requires |s.buffer| > 0
    ensures Do(s, a).runs == s.runs && |Do(s, a).buffer| == |s.buffer|
  {
  }

  lemma {:induction false} RunInv(run: seq<State>, acts: seq<Action>, i: nat)
    requires IsTrace(run, acts) && i < |run|
    ensures Inv(run[i]) && run[i].runs == run[0].runs && |run[i].buffer| == |run[0].buffer|
  {
    if i > 0 {
      RunInv(run, acts, i - 1);
      assert StepAt(run, acts, i - 1);
      DoFrame(run[i - 1], acts[i - 1]);
      DoInv(run[i - 1], acts[i - 1]);
    }
  }

  // ---- What the buffer promises ----

  /** The consumed sequence is a prefix of the produced one, never more than a buffer behind, and every
      item produced but not yet consumed is still in its slot. */
  lemma ConsumedIsPrefix(run: seq<State>, acts: seq<Action>, i: nat)
    requires IsTrace(run, acts) && i < |run|
    ensures var s := run[i];
            && s.consumed <= s.produced
            && 0 <= s.producedUntil - s.consumedUntil <= |s.buffer| == |run[0].buffer|
            && 0 <= s.consumedUntil <= |s.consumed| <= |s.produced| <= s.consumedUntil + |s.buffer|
            && s.producedUntil <= |s.produced| <= s.producedUntil + 1 && |s.consumed| <= s.consumedUntil + 1
            && forall k :: |s.consumed| <= k < |s.produced| ==> s.buffer[k % |s.buffer|] == s.produced[k]
  {
    RunInv(run, acts, i);
    forall k | |run[i].consumed| <= k < |run[i].produced|
      ensures run[i].buffer[k % |run[i].buffer|] == run[i].produced[k]
    {
      assert InSlot(run[i], k);
    }
  }

  /** When both threads have finished, everything produced has been consumed, in order. */
  lemma AllConsumed(run: seq<State>, acts: seq<Action>, i: nat)
    requires IsTrace(run, acts) && i < |run| && run[i].p.pc.Finished? && run[i].c.pc.Finished?
    ensures run[i].consumed == run[i].produced && |run[i].produced| == run[0].runs
  {
    RunInv(run, acts, i);
  }

  /** A step of a thread that goes on: it takes the lock when that is free, and does not just sleep. */
  predicate Moves(s: State, who: Who) {
    && !Get(s, who).pc.Finished? && !Get(s, who).pc.Asleep?
    && (Get(s, who).pc.Acquire? || Get(s, who).pc.Woken? ==> s.lock == Nobody)
  }

  /** No wake-up is lost: until both threads have finished, one of them can go on without a spurious
      wake-up. */
  lemma SomeoneMoves(run: seq<State>, acts: seq<Action>, i: nat) returns (who: Who)
    requires IsTrace(run, acts) && i < |run| && !(run[i].p.pc.Finished? && run[i].c.pc.Finished?)
    ensures Moves(run[i], who)
  {
    RunInv(run, acts, i);
    who := if Moves(run[i], Producer) then Producer else Consumer;
  }

  // ---- Every run ends ----

  /** What a thread can still do in this round; a wake-up of the other thread is paid for by the round. */
  function Left(x: Thread, runs: nat): int {
    10 * (runs - x.r) +
    match x.pc
    case Acquire => 9
    case Woken => 9
    case Test => 8
    case Asleep => 7
    case Work => 6
    case Bump => 5
    case Release => 4
    case Wake => 3
    case Finished => 9
  }

  function Fuel(s: State): int {
    Left(s.p, s.runs) + Left(s.c, s.runs)
  }

  lemma StepBurns(s: State, a: Action)
    requires Inv(s) && Enabled(s, a)
    ensures Fuel(Do(s, a)) <= Fuel(s) + if a.Spurious? then 2 else if Moves(s, a.who) then -1 else 0
  {
  }

  /** Steps that go on, and spurious wake-ups, among the first `i`. */
  ghost function MovesIn(run: seq<State>, acts: seq<Action>, i: nat): nat
    requires i <= |acts| && |run| == |acts| + 1
  {
    if i == 0 then 0
    else MovesIn(run, acts, i - 1) + if acts[i - 1].Step? && Moves(run[i - 1], acts[i - 1].who) then 1 else 0
  }

  ghost function SpuriousIn(acts: seq<Action>, i: nat): nat
    requires i <= |acts|
  {
    if i == 0 then 0 else SpuriousIn(acts, i - 1) + if acts[i - 1].Spurious? then 1 else 0
  }

  lemma FuelLeft(s: State)
    requires Timing(s)
    ensures Fuel(s) >= 18
  {
  }

  lemma FuelAtStart(s: State)
    requires s.p == s.c == Started(s.runs)
    ensures Fuel(s) <= 20 * s.runs + 18
  {
  }

  lemma {:induction false} FuelBurns(run: seq<State>, acts: seq<Action>, i: nat)
    requires IsTrace(run, acts) && i < |run|
    ensures MovesIn(run, acts, i) + Fuel(run[i]) <= Fuel(run[0]) + 2 * SpuriousIn(acts, i)
  {
    if i > 0 {
      FuelBurns(run, acts, i - 1);
      RunInv(run, acts, i - 1);
      assert StepAt(run, acts, i - 1);
      StepBurns(run[i - 1], acts[i - 1]);
    }
  }

  /** A run goes on at most 20 times per round, and twice more for each spurious wake-up. */
  lemma RunEnds(run: seq<State>, acts: seq<Action>, i: nat)
    requires IsTrace(run, acts) && i < |run|
    ensures MovesIn(run, acts, i) + Fuel(run[i]) <= 20 * run[0].runs + 18 + 2 * SpuriousIn(acts, i)
    ensures Fuel(run[i]) >= 18
    ensures MovesIn(run, acts, i) <= 20 * run[0].runs + 2 * SpuriousIn(acts, i)
  {
    RunInv(run, acts, i);
    FuelLeft(run[i]);
    FuelAtStart(run[0]);
    FuelBurns(run, acts, i);
  }

  // ---- The code ----

  /** What a step of `who` does not touch. */
  lemma Undisturbed(s: State, a: Action)
    requires |s.buffer| > 0 && Enabled(s, a)
    ensures var x, y := Get(s, Other(a.who)), Get(Do(s, a), Other(a.who));
            y == x || (x.pc.Asleep? && y == x.(pc := Woken))
    ensures a.who == Consumer ==> Do(s, a).produced == s.produced && Do(s, a).buffer == s.buffer
    ensures a.who == Producer ==> Do(s, a).consumed == s.consumed
  {
  }

  /** What a thread waits for: the lock, to be woken up, or that its round may go on, which is until the
      buffer is not full, or not empty. */
  datatype Awaited = ForLock | ForWakeUp(who: Who) | ForTurn(who: Who)

  predicate Blocks(w: Awaited, s: State) {
    match w
    case ForLock => s.lock != Nobody
    case ForWakeUp(who) => Get(s, who).pc.Asleep?
    case ForTurn(who) =>
      if who == Producer then s.producedUntil - s.consumedUntil == |s.buffer| else s.producedUntil == s.consumedUntil
  }

  ghost predicate ThreadGaveUp(run: seq<State>, n: int, turns: nat, who: Who) {
    || GaveUp(run, n, turns, ForLock, Blocks)
    || GaveUp(run, n, turns, ForWakeUp(who), Blocks)
    || GaveUp(run, n, turns, ForTurn(who), Blocks)
  }

  lemma ThreadGaveUpLater(run: seq<State>, run': seq<State>, n: int, n': int, turns: nat, who: Who)
    requires run <= run' && n' <= n && ThreadGaveUp(run, n, turns, who)
    ensures ThreadGaveUp(run', n', turns, who)
  {
    var w := if GaveUp(run, n, turns, ForLock, Blocks) then ForLock
             else if GaveUp(run, n, turns, ForWakeUp(who), Blocks) then ForWakeUp(who) else ForTurn(who);
    GaveUpLater(run, run', n, n', turns, w, Blocks);
  }

  /** A thread that holds the lock and may not go on finds the buffer full, or empty. */
  lemma WaitsOnlyWhenBlocked(s: State, who: Who)
    requires Inv(s) && Get(s, who).pc.Test? && !MayGoOn(s, who)
    ensures if who == Producer then s.producedUntil - s.consumedUntil == |s.buffer| else s.producedUntil == s.consumedUntil
  {
  }

  /** The shared variables of the program and its two threads.  Between two steps of one thread the other
      may do anything it can; waiting is followed for as many turns as `patience` allows. */
  class Exchange {
    const runs: nat
    const buffer: array<int>
    var lock: Holder
    var producedUntil: int
    var consumedUntil: int
    var produced: seq<int>
    var consumed: seq<int>
    var p: Thread
    var c: Thread
    ghost var run: seq<State>
    ghost var acts: seq<Action>

    function Now(): State
      reads this, buffer
    {
      State(runs, lock, buffer[..], producedUntil, consumedUntil, produced, consumed, p, c)
    }

    ghost predicate Valid()
      reads this, buffer
    {
      buffer.Length > 0 && IsTrace(run, acts) && run[|acts|] == Now() && Inv(Now())
    }

    function Me(who: Who): Thread
      reads this
    {
      if who == Producer then p else c
    }

    ghost predicate At(who: Who, pc: Pc, r: nat)
      reads this, buffer
    {
      Valid() && Me(who) == Thread(pc, r)
    }

    constructor (runs: nat, size: nat)
      requires size > 0
      ensures Valid() && fresh(buffer) && this.runs == runs && buffer.Length == size
      ensures p == c == Started(runs) && produced == consumed == []
    {
      this.runs := runs;
      buffer := new int[size](i => 0);
      lock, producedUntil, consumedUntil, produced, consumed := Nobody, 0, 0, [], [];
      p, c := Started(runs), Started(runs);
      acts := [];
      new;
      run := [Now()];
    }

    /** Action `a` has just been taken. */
    ghost method Append(before: State, a: Action)
      requires IsTrace(run, acts) && run[|acts|] == before && Inv(before) && |before.buffer| == buffer.Length
      requires Enabled(before, a) && Now() == Do(before, a)
      modifies this`run, this`acts
      ensures Valid() && run == old(run) + [Now()] && acts == old(acts) + [a]
    {
      run := run + [Now()];
      acts := acts + [a];
      forall k | 0 <= k < |acts| ensures StepAt(run, acts, k) {
        if k < |acts| - 1 { assert StepAt(old(run), old(acts), k); } else { assert run[k] == before; }
      }
      DoInv(before, a);
    }

    method Move(a: Action)
      requires Valid() && Enabled(Now(), a)
      modifies this, buffer
      ensures Valid() && run == old(run) + [Now()] && Now() == Do(old(Now()), a)
    {
      ghost var before := Now();
      var s := Do(Now(), a);
      DoFrame(before, a);
      lock, producedUntil, consumedUntil := s.lock, s.producedUntil, s.consumedUntil;
      produced, consumed, p, c := s.produced, s.consumed, s.p, s.c;
      forall i | 0 <= i < buffer.Length { buffer[i] := s.buffer[i]; }
      assert buffer[..] == s.buffer;
      Append(before, a);
    }

    /** Any number of steps of the other thread, and of spurious wake-ups. */
    method Others(me: Who)
      requires Valid()
      modifies this, buffer
      ensures Valid() && old(run) <= run
      ensures Me(me) == old(Me(me)) || (old(Me(me)).pc.Asleep? && Me(me) == old(Me(me)).(pc := Woken))
      ensures me == Producer ==> produced == old(produced)
      ensures me == Consumer ==> consumed == old(consumed)
    {
      var steps: nat := *;
      while steps > 0
        invariant Valid() && old(run) <= run
        invariant Me(me) == old(Me(me)) || (old(Me(me)).pc.Asleep? && Me(me) == old(Me(me)).(pc := Woken))
        invariant me == Producer ==> produced == old(produced)
        invariant me == Consumer ==> consumed == old(consumed)
      {
        var a: Action := *;
        if Enabled(Now(), a) && (a.Step? ==> a.who != me) {
          if a.who != me { Undisturbed(Now(), a); }
          Move(a);
        }
        steps := steps - 1;
      }
    }

    /** lock_acquire, or the end of lock_wait. */
    method LockAcquire(me: Who, r: nat, patience: nat) returns (locked: bool)
      requires At(me, Acquire, r) || At(me, Woken, r)
      modifies this, buffer
      ensures Valid() && old(run) <= run
      ensures locked ==> At(me, Test, r)
      ensures !locked ==> GaveUp(run, |old(run)| - 1, patience, ForLock, Blocks)
      ensures me == Producer ==> produced == old(produced)
      ensures me == Consumer ==> consumed == old(consumed)
    {
      var turns := 0;
      ghost var n := |run| - 1;
      NoTurns(run, n, ForLock, Blocks);
      locked := false;
      while !locked && turns < patience
        invariant Valid() && old(run) <= run && turns <= patience
        invariant if locked then At(me, Test, r) else At(me, Acquire, r) || At(me, Woken, r)
        invariant !locked ==> GaveUp(run, n, turns, ForLock, Blocks)
        invariant me == Producer ==> produced == old(produced)
        invariant me == Consumer ==> consumed == old(consumed)
        decreases !locked, patience - turns
      {
        ghost var was := run;
        locked := TryLock(me, r);
        if !locked { OneMoreTurn(was, run, n, turns, |run| - 2, ForLock, Blocks); }
        turns := turns + 1;
      }
    }

    method TryLock(me: Who, r: nat) returns (locked: bool)
      requires At(me, Acquire, r) || At(me, Woken, r)
      modifies this, buffer
      ensures Valid() && old(run) <= run && |old(run)| < |run|
      ensures if locked then At(me, Test, r) else At(me, Acquire, r) || At(me, Woken, r)
      ensures !locked ==> Blocks(ForLock, run[|run| - 2])
      ensures me == Producer ==> produced == old(produced)
      ensures me == Consumer ==> consumed == old(consumed)
    {
      Others(me);
      locked := lock == Nobody;
      Move(Step(me, 0));
    }

    /** lock_wait: release the lock, sleep until woken, take the lock again. */
    method LockWait(me: Who, r: nat, patience: nat) returns (back: bool)
      requires At(me, Test, r) && !MayGoOn(Now(), me)
      modifies this, buffer
      ensures Valid() && old(run) <= run && |old(run)| < |run|
      ensures back ==> At(me, Test, r)
      ensures !back ==> GaveUp(run, |old(run)| - 1, patience, ForWakeUp(me), Blocks)
                        || GaveUp(run, |old(run)| - 1, patience, ForLock, Blocks)
      ensures me == Producer ==> produced == old(produced)
      ensures me == Consumer ==> consumed == old(consumed)
    {
      Move(Step(me, 0));
      ghost var was := run;
      back := SleepUntilWoken(me, r, patience);
      if !back {
        GaveUpLater(run, run, |was| - 1, |old(run)| - 1, patience, ForWakeUp(me), Blocks);
      } else {
        was := run;
        back := LockAcquire(me, r, patience);
        if !back { GaveUpLater(run, run, |was| - 1, |old(run)| - 1, patience, ForLock, Blocks); }
      }
    }

    method SleepUntilWoken(me: Who, r: nat, patience: nat) returns (woken: bool)
      requires At(me, Asleep, r)
      modifies this, buffer
      ensures old(run) <= run && At(me, if woken then Woken else Asleep, r)
      ensures !woken ==> GaveUp(run, |old(run)| - 1, patience, ForWakeUp(me), Blocks)
      ensures me == Producer ==> produced == old(produced)
      ensures me == Consumer ==> consumed == old(consumed)
    {
      var turns := 0;
      ghost var n := |run| - 1;
      NoTurns(run, n, ForWakeUp(me), Blocks);
      woken := false;
      while !woken && turns < patience
        invariant old(run) <= run && At(me, if woken then Woken else Asleep, r) && turns <= patience
        invariant !woken ==> GaveUp(run, n, turns, ForWakeUp(me), Blocks)
        invariant me == Producer ==> produced == old(produced)
        invariant me == Consumer ==> consumed == old(consumed)
        decreases !woken, patience - turns
      {
        ghost var was := run;
        woken := SleepOn(me, r);
        if !woken { OneMoreTurn(was, run, n, turns, |run| - 2, ForWakeUp(me), Blocks); }
        turns := turns + 1;
      }
    }

    method SleepOn(me: Who, r: nat) returns (woken: bool)
      requires At(me, Asleep, r)
      modifies this, buffer
      ensures old(run) <= run && At(me, if woken then Woken else Asleep, r)
      ensures !woken ==> |old(run)| < |run| && Blocks(ForWakeUp(me), run[|run| - 2])
      ensures me == Producer ==> produced == old(produced)
      ensures me == Consumer ==> consumed == old(consumed)
    {
      Others(me);
      woken := Me(me).pc.Woken?;
      if !woken { Move(Step(me, 0)); }
    }

    /** Lines 38-48 and 63-67: take the lock and wait until this round may go on. */
    method AwaitTurn(me: Who, r: nat, patience: nat) returns (ready: bool)
      requires At(me, Acquire, r)
      modifies this, buffer
      ensures Valid() && old(run) <= run
      ensures ready ==> At(me, Work, r)
      ensures !ready ==> ThreadGaveUp(run, |old(run)| - 1, patience, me)
      ensures me == Producer ==> produced == old(produced)
      ensures me == Consumer ==> consumed == old(consumed)
    {
      ghost var n := |run| - 1;
      ready := LockAcquire(me, r, patience);
      var turns := 0;
      NoTurns(run, n, ForTurn(me), Blocks);
      while ready && turns < patience && !MayGoOn(Now(), me)
        invariant Valid() && old(run) <= run && (ready ==> At(me, Test, r)) && turns <= patience
        invariant if ready then GaveUp(run, n, turns, ForTurn(me), Blocks) else ThreadGaveUp(run, n, patience, me)
        invariant me == Producer ==> produced == old(produced)
        invariant me == Consumer ==> consumed == old(consumed)
        decreases patience - turns
      {
        ready := WaitOnce(me, r, patience, n, turns);
        turns := turns + 1;
      }
      if ready && MayGoOn(Now(), me) {
        Move(Step(me, 0));
      } else {
        ready := false;
      }
    }

    /** Lines 41 and 66, after a test that failed. */
    method WaitOnce(me: Who, r: nat, patience: nat, ghost n: int, ghost turns: nat) returns (ready: bool)
      requires At(me, Test, r) && !MayGoOn(Now(), me)
      requires n < |run| && GaveUp(run, n, turns, ForTurn(me), Blocks)
      modifies this, buffer
      ensures Valid() && old(run) <= run
      ensures if ready then At(me, Test, r) && GaveUp(run, n, turns + 1, ForTurn(me), Blocks) else ThreadGaveUp(run, n, patience, me)
      ensures me == Producer ==> produced == old(produced)
      ensures me == Consumer ==> consumed == old(consumed)
    {
      ghost var was := run;
      WaitsOnlyWhenBlocked(Now(), me);
      ready := LockWait(me, r, patience);
      if ready {
        OneMoreTurn(was, run, n, turns, |was| - 1, ForTurn(me), Blocks);
      } else {
        ThreadGaveUpLater(run, run, |was| - 1, n, patience, me);
      }
    }

    /** Lines 53-55 and 70-72 after the increment: release the lock, then wake up the other thread. */
    method ReleaseAndWake(me: Who, r: nat)
      requires At(me, Release, r)
      modifies this, buffer
      ensures old(run) <= run && At(me, if r + 1 < runs then Acquire else Finished, r + 1)
      ensures me == Producer ==> produced == old(produced)
      ensures me == Consumer ==> consumed == old(consumed)
    {
      Unlock(me, r);
      Others(me);
      WakeUp(me, r);
    }

    method Unlock(me: Who, r: nat)
      requires At(me, Release, r)
      modifies this, buffer
      ensures old(run) <= run && At(me, Wake, r)
      ensures produced == old(produced) && consumed == old(consumed)
    {
      Move(Step(me, 0));
    }

    method WakeUp(me: Who, r: nat)
      requires At(me, Wake, r)
      modifies this, buffer
      ensures old(run) <= run && At(me, if r + 1 < runs then Acquire else Finished, r + 1)
      ensures produced == old(produced) && consumed == old(consumed)
    {
      Move(Step(me, 0));
    }

    /** produce (lines 36-59). */
    method Produce(items: seq<int>, patience: nat) returns (finished: bool)
      requires Valid() && p == Started(runs) && produced == [] && |items| == runs
      modifies this, buffer
      ensures Valid() && old(run) <= run
      ensures finished ==> produced == items && p.pc.Finished?
      ensures !finished ==> ThreadGaveUp(run, |old(run)| - 1, patience, Producer)
    {
      var r := 0;
      while r < runs
        invariant 0 <= r <= runs && old(run) <= run
        invariant At(Producer, if r < runs then Acquire else Finished, r) && produced == items[..r]
      {
        ghost var was := run;
        finished := ProduceOne(r, items[r], patience);
        if !finished {
          ThreadGaveUpLater(run, run, |was| - 1, |old(run)| - 1, patience, Producer);
          return;
        }
        r := r + 1;
      }
      assert items[..runs] == items;
      finished := true;
    }

    method ProduceOne(r: nat, item: int, patience: nat) returns (done: bool)
      requires At(Producer, Acquire, r)
      modifies this, buffer
      ensures Valid() && old(run) <= run
      ensures done ==> At(Producer, if r + 1 < runs then Acquire else Finished, r + 1)
      ensures done ==> produced == old(produced) + [item]
      ensures !done ==> ThreadGaveUp(run, |old(run)| - 1, patience, Producer)
    {
      done := AwaitTurn(Producer, r, patience);
      if done {
        FillSlot(r, item);
        Others(Producer);
        BumpProduced(r);
        ReleaseAndWake(Producer, r);
      }
    }

    /** Lines 50-52. */
    method FillSlot(r: nat, item: int)
      requires At(Producer, Work, r)
      modifies this, buffer
      ensures old(run) <= run && At(Producer, Bump, r) && produced == old(produced) + [item]
    {
      ghost var before := Now();
      produced := produced + [item];
      buffer[r % buffer.Length] := item;
      p := Thread(Bump, r);
      assert buffer[..] == before.buffer[r % buffer.Length := item];
      Append(before, Step(Producer, item));
    }

    method BumpProduced(r: nat)
      requires At(Producer, Bump, r)
      modifies this
      ensures old(run) <= run && At(Producer, Release, r) && produced == old(produced)
    {
      ghost var before := Now();
      producedUntil := producedUntil + 1;
      p := Thread(Release, r);
      Append(before, Step(Producer, 0));
    }

    /** consume (lines 61-74): what it has consumed when it finishes is what was produced. */
    method Consume(patience: nat) returns (finished: bool)
      requires Valid() && c == Started(runs) && consumed == []
      modifies this, buffer
      ensures Valid() && old(run) <= run
      ensures finished ==> c.pc.Finished? && |consumed| == runs && consumed == produced[..runs]
      ensures !finished ==> ThreadGaveUp(run, |old(run)| - 1, patience, Consumer)
    {
      var r := 0;
      while r < runs
        invariant 0 <= r <= runs && old(run) <= run
        invariant At(Consumer, if r < runs then Acquire else Finished, r) && |consumed| == r
      {
        ghost var was := run;
        finished := ConsumeOne(r, patience);
        if !finished {
          ThreadGaveUpLater(run, run, |was| - 1, |old(run)| - 1, patience, Consumer);
          return;
        }
        r := r + 1;
      }
      finished := true;
    }

    method ConsumeOne(r: nat, patience: nat) returns (done: bool)
      requires At(Consumer, Acquire, r)
      modifies this, buffer
      ensures Valid() && old(run) <= run
      ensures done ==> At(Consumer, if r + 1 < runs then Acquire else Finished, r + 1)
      ensures done ==> |consumed| == |old(consumed)| + 1
      ensures !done ==> ThreadGaveUp(run, |old(run)| - 1, patience, Consumer)
    {
      done := AwaitTurn(Consumer, r, patience);
      if done {
        EmptySlot(r);
        Others(Consumer);
        BumpConsumed(r);
        ReleaseAndWake(Consumer, r);
      }
    }

    /** Line 69. */
    method EmptySlot(r: nat)
      requires At(Consumer, Work, r)
      modifies this
      ensures old(run) <= run && At(Consumer, Bump, r) && |consumed| == |old(consumed)| + 1
    {
      ghost var before := Now();
      consumed := consumed + [buffer[r % buffer.Length]];
      c := Thread(Bump, r);
      Append(before, Step(Consumer, 0));
    }

    method BumpConsumed(r: nat)
      requires At(Consumer, Bump, r)
      modifies this
      ensures old(run) <= run && At(Consumer, Release, r) && consumed == old(consumed)
    {
      ghost var before := Now();
      consumedUntil := consumedUntil + 1;
      c := Thread(Release, r);
      Append(before, Step(Consumer, 0));
    }
  }
}
