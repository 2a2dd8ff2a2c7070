/** 32-bit bitmap arithmetic of the HAMT (rust/ares/src/hamt.rs:13-21 and
    the `Stem` helpers at 178-217): a chunk is a 5-bit slice of a mug, a
    bitmap has bit `c` set when slot `c` is occupied, and the occupied slots
    are stored densely, so slot `c` lives at the number of occupied slots
    below it. */
module Bits32 {
  import opened Nouns

  type Chunk = c: bv32 | c < 32

  /** A number of low positions, 0 to 32. The bounds of chunks and spans
      are carried by their types. */
  type Span = n: bv32 | n <= 32

  /** `chunk_to_bit`. */
  function ChunkToBit(c: Chunk): bv32
  {
    1 << c
  }

  /** `chunk_to_mask`: every bit below `c`. */
  function ChunkToMask(c: Chunk): bv32
  {
    ChunkToBit(c) - 1
  }

  /** Bit `i` of `b`. */
  predicate Bit(b: bv32, i: Chunk)
  {
    (b >> i) & 1 == 1
  }

  /** The number of set bits of `b` below position `n`. */
  function CountBits(b: bv32, n: Span): nat
    decreases n
  {
    if n == 0 then 0 else CountBits(b, n - 1) + (if Bit(b, n - 1) then 1 else 0)
  }

  /** `count_ones`, one low bit at a time. */
  function PopCount(b: bv32): nat
    decreases b
  {
    if b == 0 then 0 else (if b & 1 == 1 then 1 else 0) + PopCount(b >> 1)
  }

  /** `Stem::hypothetical_index`: where slot `c` is (or would be) stored,
      the number of occupied slots below it. The source computes it as
      `(bitmap & chunk_to_mask(c)).count_ones()`; `IndexIsCount` shows the
      two agree. */
  function HypotheticalIndex(bitmap: bv32, c: Chunk): nat
  {
    CountBits(bitmap, c)
  }

  /** `Stem::has_index`. */
  predicate HasIndex(bitmap: bv32, c: Chunk)
  {
    bitmap & ChunkToBit(c) != 0
  }

  /** The bitmap with slot `c` marked, `bitmap | chunk_to_bit(c)`. */
  function SetSlot(b: bv32, c: Chunk): bv32
  {
    b | ChunkToBit(c)
  }

  /** The bitmap with slot `c` unmarked, `bitmap & !chunk_to_bit(c)`. */
  function ClearSlot(b: bv32, c: Chunk): bv32
  {
    b & !ChunkToBit(c)
  }

  // ---------------------------------------------------------------------
  // Single-bit facts.

  lemma HasIndexBit(b: bv32, c: Chunk)
    ensures HasIndex(b, c) <==> Bit(b, c)
  {
  }

  lemma ToBitBit(c: Chunk, i: Chunk)
    ensures Bit(ChunkToBit(c), i) <==> i == c
  {
  }

  lemma MaskBit(c: Chunk, i: Chunk)
    ensures Bit(ChunkToMask(c), i) <==> i < c
  {
  }

  lemma AndBit(a: bv32, b: bv32, i: Chunk)
    ensures Bit(a & b, i) <==> Bit(a, i) && Bit(b, i)
  {
  }

  lemma OrBit(a: bv32, b: bv32, i: Chunk)
    ensures Bit(a | b, i) <==> Bit(a, i) || Bit(b, i)
  {
  }

  lemma NotBit(a: bv32, i: Chunk)
    ensures Bit(!a, i) <==> !Bit(a, i)
  {
  }

  lemma OrToBit(b: bv32, c: Chunk, i: Chunk)
    ensures Bit(SetSlot(b, c), i) == (Bit(b, i) || i == c)
  {
  }

  lemma AndNotBit(b: bv32, c: Chunk, i: Chunk)
    ensures Bit(ClearSlot(b, c), i) == (Bit(b, i) && i != c)
  {
  }

  /** Marking slot `c` sets bit `c` and no other. */
  lemma SetSlotBits(b: bv32, c: Chunk)
    ensures forall i: Chunk :: Bit(SetSlot(b, c), i) == (Bit(b, i) || i == c)
  {
    forall i: Chunk ensures Bit(SetSlot(b, c), i) == (Bit(b, i) || i == c) {
      OrToBit(b, c, i);
    }
  }

  /** Unmarking slot `c` clears bit `c` and no other. */
  lemma ClearSlotBits(b: bv32, c: Chunk)
    ensures forall i: Chunk :: Bit(ClearSlot(b, c), i) == (Bit(b, i) && i != c)
  {
    forall i: Chunk ensures Bit(ClearSlot(b, c), i) == (Bit(b, i) && i != c) {
      AndNotBit(b, c, i);
    }
  }

  lemma ZeroBits()
    ensures forall i: Chunk :: !Bit(0, i)
  {
    forall i: Chunk ensures !Bit(0, i) {
      ZeroBit(i);
    }
  }

  lemma ZeroBit(i: Chunk)
    ensures !Bit(0, i)
  {
  }

  /** Bit `i` of `b >> 1` is bit `i + 1` of `b`. */
  lemma ShiftBit(b: bv32, i: Chunk)
    ensures i < 31 ==> Bit(b >> 1, i) == Bit(b, i + 1)
  {
  }

  lemma LowBit(b: bv32)
    ensures Bit(b, 0) == (b & 1 == 1)
  {
  }

  /** Bit 31 of `b >> 1` is clear. */
  lemma TopClearBit(b: bv32)
    ensures !Bit(b >> 1, 31)
  {
  }

  // ---------------------------------------------------------------------
  // Counting.

  /** Bitmaps that agree below `n` have the same count below `n`. */
  lemma {:induction false} CountSame(a: bv32, b: bv32, n: Span)
    requires forall i: Chunk | i < n :: Bit(a, i) == Bit(b, i)
    ensures CountBits(a, n) == CountBits(b, n)
    decreases n
  {
    if n > 0 {
      CountSame(a, b, n - 1);
    }
  }

  /** Masking with the bits below `c` counts only below `c`. */
  lemma CountMasked(b: bv32, c: Chunk, n: Span)
    ensures CountBits(b & ChunkToMask(c), n) == CountBits(b, if n <= c then n else c)
  {
    forall i: Chunk ensures Bit(b & ChunkToMask(c), i) == (Bit(b, i) && i < c) {
      MaskedBit(b, c, i);
    }
    CountBelow(b & ChunkToMask(c), b, c, n);
  }

  /** A word whose bits are those of `b` below `c` counts as `b` does up to
      `c`. */
  lemma {:induction false} CountBelow(x: bv32, b: bv32, c: Chunk, n: Span)
    requires forall i: Chunk :: Bit(x, i) == (Bit(b, i) && i < c)
    ensures CountBits(x, n) == CountBits(b, if n <= c then n else c)
    decreases n
  {
    if n > 0 {
      CountBelow(x, b, c, n - 1);
    }
  }

  lemma MaskedBit(b: bv32, c: Chunk, i: Chunk)
    ensures Bit(b & ChunkToMask(c), i) == (Bit(b, i) && i < c)
  {
    AndBit(b, ChunkToMask(c), i);
    MaskBit(c, i);
  }

  /** The source's masked population count is the hypothetical index. */
  lemma IndexIsCount(b: bv32, c: Chunk)
    ensures PopCount(b & ChunkToMask(c)) == HypotheticalIndex(b, c)
  {
    PopCountIsCount(b & ChunkToMask(c));
    CountMasked(b, c, 32);
  }

  /** Counting up to a later position counts at least as many, and one more
      when the earlier position itself is set. */
  lemma {:induction false} CountMono(b: bv32, m: Chunk, n: Span)
    requires m < n
    ensures CountBits(b, m) + (if Bit(b, m) then 1 else 0) <= CountBits(b, n)
    decreases n
  {
    if n - 1 > m {
      CountMono(b, m, n - 1);
    }
  }

  /** The population count is the count of set bits below 32. */
  lemma {:induction false} PopCountIsCount(b: bv32)
    ensures PopCount(b) == CountBits(b, 32)
    decreases b
  {
    if b == 0 {
      CountZero(32);
    } else {
      ShiftSmaller(b);
      PopCountIsCount(b >> 1);
      CountShift(b, 31);
      TopClearBit(b);
    }
  }

  lemma ShiftSmaller(b: bv32)
    requires b != 0
    ensures b >> 1 < b
  {
  }

  /** Counting from bit 1 of `b` is counting from bit 0 of `b >> 1`. */
  lemma {:induction false} CountShift(b: bv32, n: Chunk)
    ensures CountBits(b, n + 1) == (if b & 1 == 1 then 1 else 0) + CountBits(b >> 1, n)
    decreases n
  {
    if n > 0 {
      CountShift(b, n - 1);
      ShiftBit(b, n - 1);
    } else {
      LowBit(b);
    }
  }

  /** Every hypothetical index is at most the size. */
  lemma IndexAtMostSize(b: bv32, c: Chunk)
    ensures HypotheticalIndex(b, c) <= PopCount(b)
  {
    PopCountIsCount(b);
    CountMono(b, c, 32);
  }

  /** Occupied slots are stored inside the buffer. */
  lemma IndexInBounds(b: bv32, c: Chunk)
    requires Bit(b, c)
    ensures HypotheticalIndex(b, c) < PopCount(b)
  {
    PopCountIsCount(b);
    CountMono(b, c, 32);
  }

  /** Occupied slots are stored in chunk order, so distinct slots never
      share an entry. */
  lemma IndexOrdered(b: bv32, c: Chunk, d: Chunk)
    requires Bit(b, c) && c < d
    ensures HypotheticalIndex(b, c) < HypotheticalIndex(b, d)
  {
    CountMono(b, c, d);
  }

  /** `Stem::index`: the stored position of an occupied slot, inside the
      buffer of `size()` entries. */
  function Index(bitmap: bv32, c: Chunk): (r: Option<nat>)
    ensures r.Some? <==> Bit(bitmap, c)
    ensures r.Some? ==> r.value == HypotheticalIndex(bitmap, c) && r.value < PopCount(bitmap)
  {
    HasIndexBit(bitmap, c);
    if HasIndex(bitmap, c) then
      IndexInBounds(bitmap, c);
      Some(HypotheticalIndex(bitmap, c))
    else None
  }

  /** Every position of the dense buffer holds some occupied slot. */
  lemma {:induction false} IndexOnto(b: bv32, i: nat, n: Span) returns (c: Chunk)
    requires i < CountBits(b, n)
    ensures c < n && Bit(b, c) && CountBits(b, c) == i
    decreases n
  {
    var m := n - 1;
    if i < CountBits(b, m) {
      c := IndexOnto(b, i, m);
    } else {
      c := m;
    }
  }

  /** Filling the empty slot `c` grows the size by one. */
  lemma PopCountPlusOne(b: bv32, b': bv32, c: Chunk)
    requires !Bit(b, c)
    requires forall i: Chunk :: Bit(b', i) == (Bit(b, i) || i == c)
    ensures PopCount(b') == PopCount(b) + 1
  {
    PopCountIsCount(b);
    PopCountIsCount(b');
    CountPlusOne(b, b', c, 32);
  }

  /** Setting a clear bit adds one to every count above it. */
  lemma {:induction false} CountPlusOne(b: bv32, b': bv32, c: Chunk, n: Span)
    requires !Bit(b, c)
    requires forall i: Chunk :: Bit(b', i) == (Bit(b, i) || i == c)
    ensures CountBits(b', n) == CountBits(b, n) + (if c < n then 1 else 0)
    decreases n
  {
    if n > 0 {
      var m := n - 1;
      CountPlusOne(b, b', c, m);
      assert Bit(b', m) == (Bit(b, m) || m == c);
    }
  }

  /** A single-slot bitmap has size one. */
  lemma PopCountSingle(c: Chunk)
    ensures PopCount(ChunkToBit(c)) == 1
  {
    PopCountIsCount(ChunkToBit(c));
    CountSingle(c, 32);
  }

  /** The count of a single-slot bitmap (the push-down stem). */
  lemma {:induction false} CountSingle(c: Chunk, n: Span)
    ensures CountBits(ChunkToBit(c), n) == if c < n then 1 else 0
    decreases n
  {
    if n > 0 {
      CountSingle(c, n - 1);
      ToBitBit(c, n - 1);
    }
  }

  lemma {:induction false} CountZero(n: Span)
    ensures CountBits(0, n) == 0
    decreases n
  {
    if n > 0 {
      CountZero(n - 1);
      ZeroBit(n - 1);
    }
  }

  /** A bitmap with no set bit is zero (the `bitmap > 0` test of the
      iterator). */
  lemma CountZeroIff(b: bv32)
    ensures PopCount(b) == 0 <==> b == 0
  {
    PopCountIsCount(b);
    if b == 0 {
      CountZero(32);
    } else {
      var c := LowestBit(b);
      CountMono(b, c, 32);
    }
  }

  lemma LowestBit(b: bv32) returns (c: Chunk)
    requires b != 0
    ensures Bit(b, c)
  {
    TrailingZerosFacts(b);
    c := TrailingZeros(b);
  }

  // ---------------------------------------------------------------------
  // The mug, five bits per level.

  /** What is left of the mug after `d` rounds of `mug >>= 5`. */
  function MugBits(mug: bv32, d: nat): bv32
    requires d <= 6
  {
    mug >> FiveTimes(d)
  }

  /** `mug & 0x1f`, the chunk a round uses. */
  function LowChunk(b: bv32): Chunk
  {
    b & 0x1f
  }

  /** `mug >> 5`. */
  function DropChunk(b: bv32): bv32
  {
    b >> 5
  }

  /** The chunk a key uses at depth `d`: bits `5d` to `5d + 4` of its mug,
      as `(mug >> (d * 5)) & 0x1f` computes it. */
  function ChunkAt(mug: bv32, d: nat): Chunk
    requires d <= 6
  {
    LowChunk(MugBits(mug, d))
  }

  lemma MugBitsZero(mug: bv32)
    ensures MugBits(mug, 0) == mug
  {
  }

  /** One more round of `mug >>= 5` moves the walk to the next level's
      chunk. */
  lemma MugBitsNext(mug: bv32, d: nat)
    requires d < 6
    ensures DropChunk(MugBits(mug, d)) == MugBits(mug, d + 1)
  {
    var a := FiveTimes(d);
    assert FiveTimes(d + 1) == a + 5;
    ShiftAdd(mug, a);
  }

  lemma ShiftAdd(mug: bv32, a: bv32)
    requires a <= 25
    ensures (mug >> a) >> 5 == mug >> (a + 5)
  {
  }

  /** `k * 5` as a shift amount. */
  function FiveTimes(k: nat): (r: bv32)
    requires k <= 6
    ensures r <= 30 && (k <= 5 ==> r <= 25) && (k <= 4 ==> r <= 20) && (k <= 3 ==> r <= 15)
    ensures (k <= 2 ==> r <= 10) && (k <= 1 ==> r <= 5)
  {
    if k == 0 then 0 else FiveTimes(k - 1) + 5
  }

  // ---------------------------------------------------------------------
  // Lowest set bit, for the iterator.

  /** `trailing_zeros`: the number of clear bits below the lowest set bit,
      32 for zero. */
  function TrailingZeros(b: bv32): bv32
    decreases b
  {
    if b == 0 then 32
    else if b & 1 == 1 then 0
    else
      ShiftSmaller(b);
      1 + TrailingZeros(b >> 1)
  }

  /** One more position counts bit `c` too. */
  lemma CountNext(b: bv32, c: Chunk)
    ensures CountBits(b, c + 1) == CountBits(b, c) + (if Bit(b, c) then 1 else 0)
  {
  }

  /** The trailing-zero count is the position of the lowest set bit. */
  lemma TrailingZerosFacts(b: bv32)
    ensures TrailingZeros(b) <= 32
    ensures TrailingZeros(b) == 32 <==> b == 0
    ensures TrailingZeros(b) < 32 ==> Bit(b, TrailingZeros(b))
    ensures forall i: Chunk | i < TrailingZeros(b) :: !Bit(b, i)
  {
    TrailingSet(b);
    TrailingClear(b);
  }

  lemma {:induction false} TrailingSet(b: bv32)
    ensures TrailingZeros(b) <= 32
    ensures b != 0 ==> TrailingZeros(b) < 32 && Bit(b, TrailingZeros(b))
    decreases b
  {
    if b == 0 {
    } else if b & 1 == 1 {
      LowBit(b);
    } else {
      ShiftSmaller(b);
      LowZero(b);
      TrailingSet(b >> 1);
      var r := TrailingZeros(b >> 1);
      TopClearBit(b);
      assert r < 31;
      ShiftBit(b, r);
    }
  }

  lemma {:induction false} TrailingClear(b: bv32)
    ensures forall i: Chunk | i < TrailingZeros(b) :: !Bit(b, i)
    decreases b
  {
    if b == 0 {
      ZeroBits();
    } else if b & 1 != 1 {
      ShiftSmaller(b);
      LowZero(b);
      TrailingClear(b >> 1);
      TrailingSet(b >> 1);
      forall i: Chunk | i < TrailingZeros(b)
        ensures !Bit(b, i)
      {
        TrailingStep(b, i);
      }
    }
  }

  /** Below the lowest set bit of `b >> 1`, shifted up by one, `b` is clear
      when its own low bit is. */
  lemma TrailingStep(b: bv32, i: Chunk)
    requires b != 0 && b & 1 != 1
    requires forall j: Chunk {:trigger Bit(b >> 1, j)} | j < TrailingZeros(b >> 1) :: !Bit(b >> 1, j)
    requires TrailingZeros(b >> 1) < 32 && i < 1 + TrailingZeros(b >> 1)
    ensures !Bit(b, i)
  {
    if i == 0 {
      LowBit(b);
    } else {
      ShiftBit(b, i - 1);
    }
  }

  lemma LowZero(b: bv32)
    requires b != 0 && b & 1 != 1
    ensures b >> 1 != 0
  {
  }

  // ---------------------------------------------------------------------
  // Moving past the lowest set bit, for the iterator.

  /** `b >> (tz + 1)` computed as `(b >> tz) >> 1`, so that no shift is by
      the full width 32. */
  function ShiftPast(b: bv32, tz: Chunk): bv32
  {
    (b >> tz) >> 1
  }

  /** Moving past bit 0 is one shift. */
  lemma ShiftPastZero(b: bv32)
    ensures ShiftPast(b, 0) == b >> 1
  {
  }

  /** Moving past bit `tz` of `b` is moving past bit `tz - 1` of `b >> 1`. */
  lemma ShiftPastSucc(b: bv32, tz: Chunk)
    ensures tz > 0 ==> ShiftPast(b, tz) == ShiftPast(b >> 1, tz - 1)
  {
  }
}
