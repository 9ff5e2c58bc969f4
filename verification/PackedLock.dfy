/** The packed version/lock word of 358982/versioned_lock.cpp: a 32-bit int whose lowest bit is the lock
    and whose other bits are the version. */
module PackedLock {
  import opened SharedMemory
  import opened Stm
  import opened StmInvariant
  import opened StmSteps

  const HALF: int := 0x8000_0000   // 2^31
  const LIMIT: int := 0x4000_0000  // 2^30

  type int32 = v: int | -0x8000_0000 <= v < 0x8000_0000

  /** Two's complement: what is left of a number in 32 bits. */
  function Wrap(x: int): int32 {
    (x + HALF) % (2 * HALF) - HALF
  }

  /** form_version_locked (lines 9-11). */
  function Form(version: int32, lock: bool): int32 {
    Wrap(2 * version) + if lock then 1 else 0
  }

  /** The two halves of get_version_locked (lines 30-34); `>>` rounds down. */
  function VersionOf(v: int32): int32 {
    v / 2
  }

  function IsLocked(v: int32): bool {
    v % 2 == 1
  }

  /** Packing loses nothing exactly for versions of 31 bits. */
  lemma UnpackPacked(version: int32, lock: bool)
    ensures VersionOf(Form(version, lock)) == version && IsLocked(Form(version, lock)) == lock
            <==> -LIMIT <= version < LIMIT
  {
  }

  /** Every word is the packing of its halves. */
  lemma PackUnpacked(v: int32)
    ensures Form(VersionOf(v), IsLocked(v)) == v
  {
  }

  /** Equal words have equal halves, so the compare-and-swap compares both. */
  lemma PackedEqual(a: int32, b: int32, p: bool, q: bool)
    requires -LIMIT <= a < LIMIT && -LIMIT <= b < LIMIT
    ensures Form(a, p) == Form(b, q) <==> a == b && p == q
  {
    UnpackPacked(a, p);
    UnpackPacked(b, q);
  }

  // ---- The lock words of the transactional memory ----

  /** The word that stands for the version and lock of `l`. */
  function Packed(s: State, l: Loc): int32
    requires s.cells[l].version < HALF
  {
    Form(s.cells[l].version, s.cells[l].locked)
  }

  lemma VersionsFit(run: seq<State>, i: nat, l: Loc)
    requires IsRun(run) && i < |run| && run[i].clock < LIMIT
    ensures run[i].cells[l].version < LIMIT
  {
    RunInv(run, i);
    assert CellInv(run[i], l);
  }

  /** Over every run whose clock stays below 2^30, the tests on the packed word are the tests of the
      machine (lines 45-48). */
  lemma PackedTests(run: seq<State>, i: nat, l: Loc, rv: nat)
    requires IsRun(run) && i < |run| && run[i].clock < LIMIT
    ensures run[i].cells[l].version < LIMIT
    ensures VersionOf(Packed(run[i], l)) == run[i].cells[l].version
    ensures IsLocked(Packed(run[i], l)) == run[i].cells[l].locked
    ensures UnlockedAndOld(run[i], l, rv) <==> !IsLocked(Packed(run[i], l)) && VersionOf(Packed(run[i], l)) <= rv
  {
    VersionsFit(run, i, l);
    UnpackPacked(run[i].cells[l].version, run[i].cells[l].locked);
  }

  /** The compare-and-swap of try_lock (line 17): it succeeds exactly when the word is the one expected,
      and then stores the one desired. */
  lemma PackedTryLock(run: seq<State>, i: nat, t: Tid)
    requires IsRun(run) && i < |run| && run[i].clock < LIMIT
    requires t < |run[i].txs| && run[i].txs[t].pc.TryCas? && run[i].txs[t].pc.seen < LIMIT
    ensures run[i].txs[t].pc.i < |run[i].txs[t].writeSet|
    ensures var l, seen := run[i].txs[t].writeSet[run[i].txs[t].pc.i].loc, run[i].txs[t].pc.seen;
            var s, s' := run[i], DoTryCas(run[i], t);
            && s.cells[l].version < LIMIT && s'.cells[l].version < LIMIT
            && (s'.txs[t].pc.Locking? <==> Packed(s, l) == Form(seen, false))
            && Packed(s', l) == if Packed(s, l) == Form(seen, false) then Form(seen, true) else Packed(s, l)
  {
    RunInv(run, i);
    assert TxInv(run[i], t);
    var x := run[i].txs[t];
    var l := x.writeSet[x.pc.i].loc;
    VersionsFit(run, i, l);
    PackedEqual(run[i].cells[l].version, x.pc.seen, run[i].cells[l].locked, false);
  }

  /** The store of unlock (line 22) leaves the word the machine says, with the version it had. */
  lemma PackedUnlock(run: seq<State>, i: nat, t: Tid)
    requires IsRun(run) && i < |run| && run[i].clock < LIMIT && t < |run[i].txs| && run[i].txs[t].pc.UnlockStore?
    ensures run[i].txs[t].pc.i < |run[i].txs[t].writeSet| && run[i].txs[t].pc.seen < LIMIT
    ensures var x := run[i].txs[t];
            var l, s' := x.writeSet[x.pc.i].loc, DoUnlockStore(run[i], t);
            && s'.cells[l].version < LIMIT && Packed(s', l) == Form(x.pc.seen, false)
            && VersionOf(Packed(s', l)) == run[i].cells[l].version
  {
    RunInv(run, i);
    var x := run[i].txs[t];
    assert TxInv(run[i], t) && CellInv(run[i], x.writeSet[x.pc.i].loc);
    UnpackPacked(x.pc.seen, false);
  }

  /** The store of set_version (line 27) leaves the word the machine says, with the lock bit it had. */
  lemma PackedSetVersion(run: seq<State>, i: nat, t: Tid)
    requires IsRun(run) && i < |run| && run[i].clock < LIMIT && t < |run[i].txs| && run[i].txs[t].pc.VersionStore?
    ensures run[i].txs[t].pc.i < |run[i].txs[t].writeSet| && 0 < run[i].txs[t].wv < LIMIT
    ensures var x := run[i].txs[t];
            var l, s' := x.writeSet[x.pc.i].loc, DoVersionStore(run[i], t);
            && s'.cells[l].version < LIMIT && Packed(s', l) == Form(x.wv, x.pc.held)
            && IsLocked(Packed(s', l)) == run[i].cells[l].locked
  {
    RunInv(run, i);
    var x := run[i].txs[t];
    assert TxInv(run[i], t) && CellInv(run[i], x.writeSet[x.pc.i].loc);
    LocsPrefix(x.writeSet, x.pc.i);
    UnpackPacked(x.wv, x.pc.held);
  }

  // ---- The code ----

  /** The lock object.  Between two accesses of one thread the others may store anything. */
  class VersionedLock {
    var v: int32

    /** init (lines 36-39). */
    constructor ()
      ensures VersionOf(v) == 0 && !IsLocked(v)
    {
      v := Form(0, false);
    }

    /** Whatever the other threads do to the word. */
    method Others()
      modifies this
    {
      var stored: bool := *;
      var w: int32 := *;
      if stored { v := w; }
    }

    /** get_version_locked (lines 30-34). */
    method GetVersionLocked() returns (version: int32, locked: bool)
      ensures Form(version, locked) == v && -LIMIT <= version < LIMIT
    {
      var cur := v;
      version, locked := VersionOf(cur), IsLocked(cur);
      PackUnpacked(cur);
    }

    /** try_lock (lines 13-18).  It wins exactly when, at the swap, the word is unlocked and has the
        version it loaded before; then it sets the lock bit and keeps the version. */
    method TryLock() returns (won: bool, ghost seen: int32, ghost found: int32)
      modifies this
      ensures won <==> VersionOf(found) == seen && !IsLocked(found)
      ensures won ==> VersionOf(v) == seen && IsLocked(v)
      ensures !won ==> v == found
    {
      var version, locked := GetVersionLocked();
      var expected, desired := Form(version, false), Form(version, true);
      Others();
      seen, found := version, v;
      PackUnpacked(found);
      UnpackPacked(version, true);
      UnpackPacked(version, false);
      won := v == expected;
      if won { v := desired; }
    }

    /** unlock (lines 20-23): with no store of others in between, the version stays. */
    method Unlock() returns (ghost loaded: int32)
      modifies this
      ensures loaded == old(v) && VersionOf(v) == VersionOf(loaded) && !IsLocked(v)
    {
      loaded := v;
      var version, locked := GetVersionLocked();
      UnpackPacked(version, locked);
      Others();
      v := Form(version, false);
      UnpackPacked(version, false);
    }

    /** set_version (lines 25-28): the lock bit is the one loaded. */
    method SetVersion(version: int32)
      requires -LIMIT <= version < LIMIT
      modifies this
      ensures VersionOf(v) == version && IsLocked(v) == IsLocked(old(v))
    {
      var cur, locked := GetVersionLocked();
      UnpackPacked(cur, locked);
      Others();
      v := Form(version, locked);
      UnpackPacked(version, locked);
    }

    /** unlocked_and_old (lines 45-48), from one load: passes exactly for the packing of an unlocked
        version that is old enough, whatever others store afterwards. */
    method UnlockedAndOldWord(version: int32) returns (ok: bool)
      modifies this
      ensures ok <==> exists w: int32 :: -LIMIT <= w < LIMIT && w <= version && old(v) == Form(w, false)
    {
      var cur := v;
      Others();
      ok := !(cur % 2 == 1) && cur / 2 <= version;
      PackUnpacked(cur);
      forall w: int32 | -LIMIT <= w < LIMIT && cur == Form(w, false) ensures VersionOf(cur) == w && !IsLocked(cur) {
        UnpackPacked(w, false);
      }
    }
  }
}
