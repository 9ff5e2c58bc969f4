/** Tagged pointers and lock lookup (358982/TransactionalMemory.cpp lines 36-59, 358982/MemorySegment.cpp
    lines 11-28).  Clients see pointers whose top 16 bits name a segment; the region puts its own address
    prefix back before it touches memory.  Pointers are 64-bit numbers: the clear mask keeps the remainder
    modulo 2^48, and the shift by 48 divides by it. */
module Addressing {

  const LOW: nat := 0x1_0000_0000_0000  // 2^48

  type Pointer = p: nat | p < 0x1_0000_0000_0000_0000
  type Tag = n: nat | n < 0x1_0000

  /** get_pointer_top_digits (lines 51-54). */
  function TopDigits(p: Pointer): Tag {
    p / LOW
  }

  /** change_pointer_top_digits_to (lines 56-59). */
  function ChangeTopDigits(p: Pointer, n: Tag): Pointer {
    p % LOW + n * LOW
  }

  /** create_opaque_data_pointer (lines 43-45). */
  function Opaque(p: Pointer, segment: Tag): Pointer {
    ChangeTopDigits(p, segment)
  }

  /** create_transparent_data_pointer (lines 47-49). */
  function Transparent(p: Pointer, prefix: Tag): Pointer {
    ChangeTopDigits(p, prefix)
  }

  /** A segment occupies `size` bytes from `data` on. */
  datatype Segment = Segment(data: Pointer, size: nat)

  /** MemorySegment::contains_address (MemorySegment.cpp lines 26-28). */
  predicate Contains(s: Segment, p: Pointer) {
    s.data <= p < s.data + s.size
  }

  /** get_versioned_lock (lines 36-41): the index of the lock of address `p`. */
  function LockIndex(s: Segment, align: nat, p: Pointer): int
    requires align > 0
  {
    (p - s.data) / align
  }

  /** How many locks the segment has (MemorySegment.cpp line 19). */
  function Locks(s: Segment, align: nat): nat
    requires align > 0
  {
    s.size / align
  }

  /** The segment lies under the region's prefix, within the 48-bit space, and is a whole number of words. */
  predicate Placed(s: Segment, prefix: Tag, align: nat) {
    && TopDigits(s.data) == prefix
    && s.data % LOW + s.size <= LOW
    && align > 0 && s.size % align == 0
  }

  // ---- What tagging promises ----

  /** The tag can be read off a tagged pointer, and untagging gives the pointer back exactly when it lies
      under the prefix that is put back. */
  lemma UntagTagged(p: Pointer, segment: Tag, prefix: Tag)
    ensures TopDigits(Opaque(p, segment)) == segment
    ensures Transparent(Opaque(p, segment), prefix) == p <==> TopDigits(p) == prefix
  {
    assert p == p % LOW + TopDigits(p) * LOW;
  }

  /** The client adds `k` bytes to its pointer. */
  function Advance(p: Pointer, k: nat): Pointer
    requires p + k < 0x1_0000_0000_0000_0000
  {
    p + k
  }

  /** Pointer arithmetic of the client inside a segment keeps the tag, and untagging afterwards is the
      same arithmetic on the real address, which lies in the segment. */
  lemma ClientArithmetic(s: Segment, segment: Tag, prefix: Tag, align: nat, k: nat)
    requires Placed(s, prefix, align) && k < s.size
    ensures Opaque(s.data, segment) + k < 0x1_0000_0000_0000_0000 && s.data + k < 0x1_0000_0000_0000_0000
    ensures TopDigits(Advance(Opaque(s.data, segment), k)) == segment
    ensures Transparent(Advance(Opaque(s.data, segment), k), prefix) == Advance(s.data, k)
    ensures Contains(s, Advance(s.data, k))
  {
    var low := s.data % LOW;
    assert s.data == low + prefix * LOW;
    assert low + k < LOW;
  }

  /** The lock of an address in the segment is that of its word, and it is in range. */
  lemma LockInRange(s: Segment, align: nat, k: nat)
    requires align > 0 && s.size % align == 0 && k < s.size && s.data + k < 0x1_0000_0000_0000_0000
    ensures 0 <= LockIndex(s, align, Advance(s.data, k)) == k / align < Locks(s, align)
  {
    assert Advance(s.data, k) - s.data == k;
    WordBelow(k, s.size, align);
  }

  lemma WordBelow(k: nat, size: nat, align: nat)
    requires align > 0 && k < size && size % align == 0
    ensures 0 <= k / align < size / align
  {
    var words := size / align;
    assert size == align * words;
    assert k == align * (k / align) + k % align;
    Products(align, k / align, words);
  }

  lemma Products(align: nat, a: int, b: int)
    requires align > 0 && align * a < align * b
    ensures a < b
  {
  }

  /** The lock a client pointer leads to: the segment of its tag and the index there. */
  function LockOf(segments: map<Tag, Segment>, prefix: Tag, align: nat, q: Pointer): (Tag, int)
    requires align > 0 && TopDigits(q) in segments
  {
    (TopDigits(q), LockIndex(segments[TopDigits(q)], align, Transparent(q, prefix)))
  }

  /** Two client addresses share a lock exactly when they lie in the same word of the same segment. */
  lemma SameLockSameWord(segments: map<Tag, Segment>, prefix: Tag, align: nat, i: Tag, k: nat, j: Tag, h: nat)
    requires i in segments && Placed(segments[i], prefix, align) && k < segments[i].size
    requires j in segments && Placed(segments[j], prefix, align) && h < segments[j].size
    ensures Opaque(segments[i].data, i) + k < 0x1_0000_0000_0000_0000
    ensures Opaque(segments[j].data, j) + h < 0x1_0000_0000_0000_0000
    ensures var p, q := Advance(Opaque(segments[i].data, i), k), Advance(Opaque(segments[j].data, j), h);
            && TopDigits(p) in segments && TopDigits(q) in segments
            && (LockOf(segments, prefix, align, p) == LockOf(segments, prefix, align, q) <==>
                  i == j && k / align == h / align)
  {
    ClientArithmetic(segments[i], i, prefix, align, k);
    ClientArithmetic(segments[j], j, prefix, align, h);
    LockInRange(segments[i], align, k);
    LockInRange(segments[j], align, h);
  }
}
