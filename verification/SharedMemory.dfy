/** Words of the shared region, and the redo log of a transaction: the ordered list of its
    pending word writes (358982/Transaction.cpp lines 38-55). */
module SharedMemory {

  /** A word: the segment it lies in and its index there.  Each word has its own versioned lock. */
  datatype Loc = Loc(seg: nat, off: nat)

  type Val = int

  datatype Write = Write(loc: Loc, val: Val)

  ghost predicate Total(m: imap<Loc, Val>) {
    forall l: Loc :: l in m
  }

  /** Contents of every word. */
  type Memory = m: imap<Loc, Val> | Total(m) ghost witness Zeroed()

  /** Fresh segments are zeroed (358982/MemorySegment.cpp line 17). */
  ghost function Zeroed(): imap<Loc, Val> {
    imap l: Loc | 0 <= l.seg :: 0
  }

  /** The words a redo log writes. */
  function Locs(ws: seq<Write>): set<Loc> {
    if ws == [] then {} else Locs(ws[..|ws| - 1]) + {ws[|ws| - 1].loc}
  }

  /** Newest-first scan of a redo log for one word; `d` is what the scan falls back to. */
  function Overlay(ws: seq<Write>, l: Loc, d: Val): Val {
    if ws == [] then d
    else if ws[|ws| - 1].loc == l then ws[|ws| - 1].val
    else Overlay(ws[..|ws| - 1], l, d)
  }

  /** In-order write-back of a redo log. */
  ghost function WriteBack(m: Memory, ws: seq<Write>): Memory {
    if ws == [] then m else WriteBack(m[ws[0].loc := ws[0].val], ws[1..])
  }

  lemma LocsAppend(ws: seq<Write>, w: Write)
    ensures Locs(ws + [w]) == Locs(ws) + {w.loc}
  {
    assert (ws + [w])[..|ws|] == ws;
  }

  lemma {:induction false} LocsSplit(ws: seq<Write>, i: nat)
    requires i <= |ws|
    ensures Locs(ws) == Locs(ws[..i]) + Locs(ws[i..])
  {
    var n := |ws| - 1;
    if i == |ws| {
      assert ws[..i] == ws && ws[i..] == [];
    } else {
      LocsSplit(ws[..n], i);
      assert ws[..n][..i] == ws[..i];
      assert ws[i..] == ws[..n][i..] + [ws[n]];
      LocsAppend(ws[..n][i..], ws[n]);
    }
  }

  lemma LocsPrefix(ws: seq<Write>, i: nat)
    requires i < |ws|
    ensures Locs(ws[..i + 1]) == Locs(ws[..i]) + {ws[i].loc}
    ensures Locs(ws[..i]) <= Locs(ws)
    ensures Locs(ws[i..]) == {ws[i].loc} + Locs(ws[i + 1..])
    ensures ws[i].loc in Locs(ws)
  {
    assert ws[..i + 1][..i] == ws[..i];
    LocsSplit(ws, i);
    LocsSplit(ws[i..], 1);
    assert ws[i..][..1] == [ws[i]] && ws[i..][1..] == ws[i + 1..];
  }

  /** A word the log does not write keeps the fallback; a word it writes ignores it. */
  lemma {:induction false} OverlayDefault(ws: seq<Write>, l: Loc, d: Val, e: Val)
    ensures l !in Locs(ws) ==> Overlay(ws, l, d) == d
    ensures l in Locs(ws) ==> Overlay(ws, l, d) == Overlay(ws, l, e)
  {
    if ws != [] {
      var n := |ws| - 1;
      assert ws[..n] + [ws[n]] == ws;
      LocsAppend(ws[..n], ws[n]);
      OverlayDefault(ws[..n], l, d, e);
    }
  }

  lemma {:induction false} OverlayFront(ws: seq<Write>, l: Loc, d: Val)
    requires ws != []
    ensures Overlay(ws, l, d) == Overlay(ws[1..], l, if ws[0].loc == l then ws[0].val else d)
  {
    var n := |ws| - 1;
    if n > 0 {
      OverlayFront(ws[..n], l, d);
      assert ws[..n][1..] == ws[1..][..n - 1];
      assert ws[1..][n - 1] == ws[n];
    }
  }

  /** The newest-first scan agrees, word by word, with what in-order write-back would leave,
      so the whole write-back is the last-write-wins map. */
  lemma {:induction false} ScanIsWriteBack(m: Memory, ws: seq<Write>, l: Loc)
    ensures WriteBack(m, ws)[l] == Overlay(ws, l, m[l])
  {
    if ws != [] {
      ScanIsWriteBack(m[ws[0].loc := ws[0].val], ws[1..], l);
      OverlayFront(ws, l, m[l]);
    }
  }

  /** Last write wins, with no recursion: the scan returns exactly the write at index `i` when no
      later entry names the same word. */
  lemma {:induction false} ScanFindsLast(ws: seq<Write>, i: nat, d: Val)
    requires i < |ws|
    requires forall j :: i < j < |ws| ==> ws[j].loc != ws[i].loc
    ensures Overlay(ws, ws[i].loc, d) == ws[i].val
  {
    var n := |ws| - 1;
    if i < n {
      assert forall j :: i < j < |ws[..n]| ==> ws[..n][j] == ws[j];
      ScanFindsLast(ws[..n], i, d);
    }
  }
}
