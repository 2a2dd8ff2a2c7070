/** `MutHamt`, the in-place variant of the HAMT in rust/ares/src/hamt.rs. A
    mutable stem has a bitmap, a typemap and a buffer of 32 entries indexed
    directly by chunk; its insert walks the key's path and rewrites the stem
    it ends at. The stems live on the NockStack and point at one another;
    here they live in an arena, a sequence the map's methods update, and a
    stem pointer is an index into it. A stem is always allocated after the
    stem that points at it, so pointers go to higher indices. */
module HamtMut {
  import opened Nouns
  import opened Bits32
  import opened Hamt
  import opened HamtFacts
  import HamtWalk

  /** An entry of the 32-slot buffer: the union of a stem pointer and a
      leaf, tagged, plus the uninitialised contents of a slot never written.
      A leaf holds exactly its live pairs (`len` is the buffer's length). */
  datatype MutEntry<V> = Unset | MStem(ptr: nat) | MLeaf(pairs: seq<(Noun, V)>)

  datatype MutStem<V> = MutStem(bitmap: bv32, typemap: bv32, buffer: seq<MutEntry<V>>)

  // ---------------------------------------------------------------------
  // The fixed buffer, indexed by chunk.

  function At<T>(b: seq<T>, c: Chunk): T
    requires |b| == 32
  {
    b[c as int]
  }

  function Put<T>(b: seq<T>, c: Chunk, x: T): (r: seq<T>)
    requires |b| == 32
    ensures |r| == 32 && At(r, c) == x
  {
    b[c as int := x]
  }

  lemma AtPut<T>(b: seq<T>, c: Chunk, x: T, c2: Chunk)
    requires |b| == 32
    ensures At(Put(b, c, x), c2) == if c2 == c then x else At(b, c2)
  {
  }

  /** A buffer of 32 unwritten slots. */
  function Blank<V>(): (r: seq<MutEntry<V>>)
    ensures |r| == 32
  {
    seq(32, _ => Unset)
  }

  /** `MutStem::entry`: the entry of an occupied slot. */
  function EntryOf<V>(s: MutStem<V>, c: Chunk): (r: Option<MutEntry<V>>)
    requires |s.buffer| == 32
    ensures r.Some? <==> Bit(s.bitmap, c)
    ensures r.Some? ==> r.value == At(s.buffer, c)
  {
    if Bit(s.bitmap, c) then Some(At(s.buffer, c)) else None
  }

  // ---------------------------------------------------------------------
  // The arena and what it maps.

  ghost predicate Sized<V>(stems: seq<MutStem<V>>)
  {
    forall i | 0 <= i < |stems| :: |stems[i].buffer| == 32
  }

  /** The value stored for `k` from stem `i` at depth `d`: follow the key's
      chunk at each level until an empty slot or a leaf. */
  ghost function Find<V>(stems: seq<MutStem<V>>, i: nat, d: nat, mug: Mug, k: Noun): Option<V>
    requires Sized(stems) && i < |stems| && d <= 5
    decreases |stems| - i, 1
  {
    FindVia(stems, i, d, EntryOf(stems[i], ChunkAt(mug(k), d)), mug, k)
  }

  /** The same, going on from the entry `e` found in stem `i`. */
  ghost function FindVia<V>(stems: seq<MutStem<V>>, i: nat, d: nat, e: Option<MutEntry<V>>, mug: Mug, k: Noun): Option<V>
    requires Sized(stems) && i < |stems| && d <= 5
    decreases |stems| - i, 0
  {
    match e
    case None => None
    case Some(Unset) => None
    case Some(MStem(j)) => if i < j < |stems| && d < 5 then Find(stems, j, d + 1, mug, k) else None
    case Some(MLeaf(ps)) => FindValue(ps, k)
  }

  /** The path of `k` from stem `i` at depth `d` passes through stem `t`. */
  ghost predicate Reaches<V>(stems: seq<MutStem<V>>, i: nat, d: nat, t: nat, mug: Mug, k: Noun)
    requires Sized(stems) && i < |stems| && d <= 5
    decreases |stems| - i
  {
    i == t ||
    match EntryOf(stems[i], ChunkAt(mug(k), d))
    case Some(MStem(j)) => i < j < |stems| && d < 5 && Reaches(stems, j, d + 1, t, mug, k)
    case _ => false
  }

  /** The invariant of the arena with the depth of each stem: the root is
      stem 0 at depth 0, a stem pointer goes to a later stem one level
      deeper, the typemap agrees with the entry tags, every occupied slot
      was written, and leaves above depth 5 hold one pair. */
  ghost predicate Arena<V>(stems: seq<MutStem<V>>, depths: seq<nat>)
  {
    && |stems| >= 1 && |depths| == |stems| && depths[0] == 0 && Sized(stems)
    && (forall i | 0 <= i < |stems| :: depths[i] <= 5)
    && (forall i, c: Chunk {:trigger SlotOk(stems, depths, i, c)} | 0 <= i < |stems| :: SlotOk(stems, depths, i, c))
  }

  ghost predicate SlotOk<V>(stems: seq<MutStem<V>>, depths: seq<nat>, i: nat, c: Chunk)
    requires Sized(stems) && |depths| == |stems| && i < |stems|
  {
    match EntryOf(stems[i], c)
    case None => true
    case Some(Unset) => false
    case Some(MStem(j)) => i < j < |stems| && depths[j] == depths[i] + 1 && Bit(stems[i].typemap, c)
    case Some(MLeaf(ps)) => |ps| >= 1 && (depths[i] < 5 ==> |ps| == 1) && !Bit(stems[i].typemap, c)
  }

  lemma SlotAt<V>(stems: seq<MutStem<V>>, depths: seq<nat>, i: nat, c: Chunk)
    requires Arena(stems, depths) && i < |stems|
    ensures SlotOk(stems, depths, i, c)
  {
    assert SlotOk(stems, depths, i, c) by {
      var _ := EntryOf(stems[i], c);
    }
  }

  /** The arena of `MutHamt::new`: one stem with nothing in it. */
  function NewArena<V>(): (r: seq<MutStem<V>>)
    ensures Arena(r, [0])
  {
    ZeroBits();
    [MutStem(0, 0, Blank())]
  }

  lemma FindNew<V>(mug: Mug, k: Noun)
    ensures Find(NewArena<V>(), 0, 0, mug, k) == None
  {
    ZeroBits();
  }

  // ---------------------------------------------------------------------
  // Writing one stem leaves every path that avoids it alone.

  /** Replacing stem `t` (and appending stems): a path from `i` that
      reaches `t` ends as it does from `t`, any other path as before. */
  lemma {:induction false} FindFrame<V>(stems: seq<MutStem<V>>, stems': seq<MutStem<V>>, depths: seq<nat>, t: nat,
                                        i: nat, mug: Mug, k: Noun)
    requires Arena(stems, depths) && Sized(stems') && |stems'| >= |stems| && t < |stems| && i < |stems|
    requires forall j | 0 <= j < |stems| && j != t :: stems'[j] == stems[j]
    ensures Reaches(stems, i, depths[i], t, mug, k) ==> Find(stems', i, depths[i], mug, k) == Find(stems', t, depths[t], mug, k)
    ensures !Reaches(stems, i, depths[i], t, mug, k) ==> Find(stems', i, depths[i], mug, k) == Find(stems, i, depths[i], mug, k)
    decreases |stems| - i
  {
    if i != t {
      var c := ChunkAt(mug(k), depths[i]);
      SlotAt(stems, depths, i, c);
      match EntryOf(stems[i], c)
      case None =>
      case Some(e) =>
        match e
        case Unset =>
        case MLeaf(_) =>
        case MStem(j) =>
          FindFrame(stems, stems', depths, t, j, mug, k);
    }
  }

  /** A path from a stem after `t` never comes back to `t`. */
  lemma {:induction false} NoReachBack<V>(stems: seq<MutStem<V>>, i: nat, d: nat, t: nat, mug: Mug, k: Noun)
    requires Sized(stems) && i < |stems| && d <= 5 && t < i
    ensures !Reaches(stems, i, d, t, mug, k)
    decreases |stems| - i
  {
    match EntryOf(stems[i], ChunkAt(mug(k), d))
    case None =>
    case Some(e) =>
      match e
      case Unset =>
      case MLeaf(_) =>
      case MStem(j) =>
        if i < j < |stems| && d < 5 {
          NoReachBack(stems, j, d + 1, t, mug, k);
        }
  }

  /** Replacing stem `t` changes every key's value by what it changes at
      `t`, for the keys whose path passes `t`. */
  lemma WriteAt<V>(stems: seq<MutStem<V>>, stems': seq<MutStem<V>>, depths: seq<nat>, t: nat, mug: Mug, k: Noun)
    requires Arena(stems, depths) && Sized(stems') && |stems'| >= |stems| && t < |stems|
    requires forall j | 0 <= j < |stems| && j != t :: stems'[j] == stems[j]
    ensures Reaches(stems, 0, 0, t, mug, k) ==>
      Find(stems, 0, 0, mug, k) == Find(stems, t, depths[t], mug, k) &&
      Find(stems', 0, 0, mug, k) == Find(stems', t, depths[t], mug, k)
    ensures !Reaches(stems, 0, 0, t, mug, k) ==> Find(stems', 0, 0, mug, k) == Find(stems, 0, 0, mug, k)
  {
    FindFrame(stems, stems', depths, t, 0, mug, k);
    FindFrame(stems, stems, depths, t, 0, mug, k);
  }

  /** Below the written stem nothing changed. */
  lemma FindBelow<V>(stems: seq<MutStem<V>>, stems': seq<MutStem<V>>, depths: seq<nat>, t: nat, j: nat, mug: Mug, k: Noun)
    requires Arena(stems, depths) && Sized(stems') && |stems'| >= |stems| && t < j < |stems|
    requires forall i | 0 <= i < |stems| && i != t :: stems'[i] == stems[i]
    ensures Find(stems', j, depths[j], mug, k) == Find(stems, j, depths[j], mug, k)
  {
    NoReachBack(stems, j, depths[j], t, mug, k);
    FindFrame(stems, stems', depths, t, j, mug, k);
  }

  /** The same path through an arena that changed only at `t`. */
  lemma {:induction false} ReachKeep<V>(stems: seq<MutStem<V>>, stems': seq<MutStem<V>>, i: nat, d: nat, t: nat, mug: Mug, k: Noun)
    requires Sized(stems) && Sized(stems') && |stems'| >= |stems| && i < |stems| && d <= 5
    requires forall j | 0 <= j < |stems| && j != t :: stems'[j] == stems[j]
    requires Reaches(stems, i, d, t, mug, k)
    ensures Reaches(stems', i, d, t, mug, k)
    decreases |stems| - i
  {
    if i != t {
      match EntryOf(stems[i], ChunkAt(mug(k), d))
      case Some(MStem(j)) =>
        ReachKeep(stems, stems', j, d + 1, t, mug, k);
    }
  }

  /** One more step down the path. */
  lemma {:induction false} ReachStep<V>(stems: seq<MutStem<V>>, depths: seq<nat>, i: nat, t: nat, j: nat, mug: Mug, k: Noun)
    requires Arena(stems, depths) && i < |stems| && t < |stems|
    requires Reaches(stems, i, depths[i], t, mug, k)
    requires EntryOf(stems[t], ChunkAt(mug(k), depths[t])) == Some(MStem(j))
    ensures j < |stems| && depths[j] <= 5
    ensures Reaches(stems, i, depths[i], j, mug, k)
    decreases |stems| - i
  {
    SlotAt(stems, depths, t, ChunkAt(mug(k), depths[t]));
    SlotAt(stems, depths, i, ChunkAt(mug(k), depths[i]));
    if i != t {
      match EntryOf(stems[i], ChunkAt(mug(k), depths[i]))
      case Some(MStem(j')) =>
        ReachStep(stems, depths, j', t, j, mug, k);
    }
  }

  // ---------------------------------------------------------------------
  // The writes of one insert round.

  /** The empty-slot write: bitmap bit set, typemap bit cleared, a
      one-pair leaf in the slot. */
  function PutLeaf<V>(s: MutStem<V>, c: Chunk, ps: seq<(Noun, V)>): (r: MutStem<V>)
    requires |s.buffer| == 32
    ensures |r.buffer| == 32
  {
    MutStem(SetSlot(s.bitmap, c), ClearSlot(s.typemap, c), Put(s.buffer, c, MLeaf(ps)))
  }

  /** The write of a pushed-down leaf's new stem into its slot: the typemap
      bit set. */
  function PutStem<V>(s: MutStem<V>, c: Chunk, p: nat): (r: MutStem<V>)
    requires |s.buffer| == 32
    ensures |r.buffer| == 32
  {
    MutStem(s.bitmap, SetSlot(s.typemap, c), Put(s.buffer, c, MStem(p)))
  }

  /** The write of an occupied leaf slot, bitmaps unchanged. */
  function PutPairs<V>(s: MutStem<V>, c: Chunk, ps: seq<(Noun, V)>): (r: MutStem<V>)
    requires |s.buffer| == 32
    ensures |r.buffer| == 32
  {
    s.(buffer := Put(s.buffer, c, MLeaf(ps)))
  }

  /** The fresh stem of a push-down: only the old leaf, at its own chunk. */
  function PushStem<V>(ps: seq<(Noun, V)>, c: Chunk): (r: MutStem<V>)
    ensures |r.buffer| == 32
  {
    MutStem(ChunkToBit(c), 0, Put(Blank(), c, MLeaf(ps)))
  }

  lemma PutLeafEntry<V>(s: MutStem<V>, c: Chunk, ps: seq<(Noun, V)>, c2: Chunk)
    requires |s.buffer| == 32
    ensures EntryOf(PutLeaf(s, c, ps), c2) == if c2 == c then Some(MLeaf(ps)) else EntryOf(s, c2)
    ensures Bit(PutLeaf(s, c, ps).typemap, c2) <==> c2 != c && Bit(s.typemap, c2)
  {
    var r := PutLeaf(s, c, ps);
    assert Bit(r.bitmap, c2) <==> c2 == c || Bit(s.bitmap, c2) by {
      OrToBit(s.bitmap, c, c2);
    }
    assert At(r.buffer, c2) == if c2 == c then MLeaf(ps) else At(s.buffer, c2) by {
      AtPut(s.buffer, c, MLeaf(ps), c2);
    }
    AndNotBit(s.typemap, c, c2);
  }

  lemma PutStemEntry<V>(s: MutStem<V>, c: Chunk, p: nat, c2: Chunk)
    requires |s.buffer| == 32 && Bit(s.bitmap, c)
    ensures EntryOf(PutStem(s, c, p), c2) == if c2 == c then Some(MStem(p)) else EntryOf(s, c2)
    ensures Bit(PutStem(s, c, p).typemap, c2) <==> c2 == c || Bit(s.typemap, c2)
  {
    OrToBit(s.typemap, c, c2);
    AtPut(s.buffer, c, MStem(p), c2);
  }

  lemma PutPairsEntry<V>(s: MutStem<V>, c: Chunk, ps: seq<(Noun, V)>, c2: Chunk)
    requires |s.buffer| == 32 && Bit(s.bitmap, c)
    ensures EntryOf(PutPairs(s, c, ps), c2) == if c2 == c then Some(MLeaf(ps)) else EntryOf(s, c2)
  {
    AtPut(s.buffer, c, MLeaf(ps), c2);
  }

  lemma PushStemEntry<V>(ps: seq<(Noun, V)>, c: Chunk, c2: Chunk)
    ensures EntryOf(PushStem(ps, c), c2) == if c2 == c then Some(MLeaf(ps)) else None
    ensures !Bit(PushStem(ps, c).typemap, c2)
  {
    ToBitBit(c, c2);
    ZeroBit(c2);
  }

  // ---------------------------------------------------------------------
  // One insert round at a time.

  /** A stem that did not change keeps its slots' invariant in a longer
      arena. */
  lemma KeepSlot<V>(stems: seq<MutStem<V>>, depths: seq<nat>, stems': seq<MutStem<V>>, depths': seq<nat>, i: nat, c: Chunk)
    requires Arena(stems, depths) && i < |stems| && Sized(stems') && |depths'| == |stems'| >= |stems|
    requires stems'[i] == stems[i] && depths'[..|depths|] == depths
    ensures SlotOk(stems', depths', i, c)
  {
    SlotAt(stems, depths, i, c);
    match EntryOf(stems[i], c)
    case None =>
    case Some(e) =>
      match e
      case Unset =>
      case MLeaf(_) =>
      case MStem(j) =>
        assert depths'[j] == depths'[..|depths|][j];
        assert depths'[i] == depths'[..|depths|][i];
  }

  /** A key whose chunk at the written stem `t` is another slot, whose
      entry did not change, finds there what it found before. */
  lemma OtherSlot<V>(stems: seq<MutStem<V>>, stems': seq<MutStem<V>>, depths: seq<nat>, t: nat, mug: Mug, k2: Noun)
    requires Arena(stems, depths) && Sized(stems') && |stems'| >= |stems| && t < |stems|
    requires forall j | 0 <= j < |stems| && j != t :: stems'[j] == stems[j]
    requires EntryOf(stems'[t], ChunkAt(mug(k2), depths[t])) == EntryOf(stems[t], ChunkAt(mug(k2), depths[t]))
    ensures Find(stems', t, depths[t], mug, k2) == Find(stems, t, depths[t], mug, k2)
  {
    var e := EntryOf(stems[t], ChunkAt(mug(k2), depths[t]));
    SlotAt(stems, depths, t, ChunkAt(mug(k2), depths[t]));
    ViaBelow(stems, stems', depths, t, e, mug, k2);
  }

  /** Going on from an entry of stem `t` into the stems below it. */
  lemma ViaBelow<V>(stems: seq<MutStem<V>>, stems': seq<MutStem<V>>, depths: seq<nat>, t: nat, e: Option<MutEntry<V>>,
                    mug: Mug, k2: Noun)
    requires Arena(stems, depths) && Sized(stems') && |stems'| >= |stems| && t < |stems|
    requires forall j | 0 <= j < |stems| && j != t :: stems'[j] == stems[j]
    requires e.Some? && e.value.MStem? ==> t < e.value.ptr < |stems| && depths[e.value.ptr] == depths[t] + 1
    ensures FindVia(stems', t, depths[t], e, mug, k2) == FindVia(stems, t, depths[t], e, mug, k2)
  {
    match e
    case Some(MStem(j)) =>
      FindBelow(stems, stems', depths, t, j, mug, k2);
    case _ =>
  }

  /** The value `k2` gets at the written stem after an empty-slot write of
      `k`. */
  lemma EmptyHere<V>(stems: seq<MutStem<V>>, stems': seq<MutStem<V>>, depths: seq<nat>, t: nat, c: Chunk, mug: Mug, k: Noun, v: V, k2: Noun)
    requires Arena(stems, depths) && t < |stems| && c == ChunkAt(mug(k), depths[t]) && EntryOf(stems[t], c) == None
    requires Sized(stems') && |stems'| == |stems| && stems'[t] == PutLeaf(stems[t], c, [(k, v)])
    requires forall j | 0 <= j < |stems| && j != t :: stems'[j] == stems[j]
    ensures Find(stems', t, depths[t], mug, k2) == if k2 == k then Some(v) else Find(stems, t, depths[t], mug, k2)
  {
    var c2 := ChunkAt(mug(k2), depths[t]);
    PutLeafEntry(stems[t], c, [(k, v)], c2);
    if c2 == c {
      FindValueSingle(k, v, k2);
    } else {
      OtherSlot(stems, stems', depths, t, mug, k2);
    }
  }

  /** The arena with stem `t` replaced. */
  function WithStem<V>(stems: seq<MutStem<V>>, t: nat, s: MutStem<V>): (r: seq<MutStem<V>>)
    requires Sized(stems) && t < |stems| && |s.buffer| == 32
    ensures |r| == |stems| && Sized(r) && r[t] == s
    ensures forall j | 0 <= j < |stems| && j != t :: r[j] == stems[j]
  {
    stems[t := s]
  }

  /** The arena after a push-down at slot `c` of stem `t`: the slot points
      at a fresh last stem holding the leaf `ps` at chunk `lc`. */
  function Pushed<V>(stems: seq<MutStem<V>>, t: nat, c: Chunk, ps: seq<(Noun, V)>, lc: Chunk): (r: seq<MutStem<V>>)
    requires Sized(stems) && t < |stems|
    ensures |r| == |stems| + 1 && Sized(r) && r[t] == PutStem(stems[t], c, |stems|) && r[|stems|] == PushStem(ps, lc)
    ensures forall j | 0 <= j < |stems| && j != t :: r[j] == stems[j]
  {
    stems[t := PutStem(stems[t], c, |stems|)] + [PushStem(ps, lc)]
  }

  /** The invariant after replacing stem `t` and appending stems, from
      the slots of the stems that changed. */
  lemma ArenaAfter<V>(stems: seq<MutStem<V>>, depths: seq<nat>, stems': seq<MutStem<V>>, depths': seq<nat>, t: nat)
    requires Arena(stems, depths) && t < |stems| && Sized(stems') && |depths'| == |stems'| >= |stems|
    requires depths'[..|depths|] == depths && forall j | 0 <= j < |stems| && j != t :: stems'[j] == stems[j]
    requires forall i | |stems| <= i < |stems'| :: depths'[i] <= 5
    requires forall c2: Chunk :: SlotOk(stems', depths', t, c2)
    requires forall i, c2: Chunk | |stems| <= i < |stems'| :: SlotOk(stems', depths', i, c2)
    ensures Arena(stems', depths')
  {
    assert depths'[0] == depths'[..|depths|][0];
    forall i | 0 <= i < |stems'| ensures depths'[i] <= 5 {
      if i < |stems| {
        assert depths'[i] == depths'[..|depths|][i];
      }
    }
    forall i, c2: Chunk | 0 <= i < |stems| && i != t ensures SlotOk(stems', depths', i, c2) {
      KeepSlot(stems, depths, stems', depths', i, c2);
    }
  }

  /** A leaf written into slot `c` of stem `t`, empty or holding a leaf
      before, keeps that slot's invariant. */
  lemma LeafSlotOk<V>(stems: seq<MutStem<V>>, depths: seq<nat>, t: nat, c: Chunk, ps: seq<(Noun, V)>, c2: Chunk)
    requires Arena(stems, depths) && t < |stems| && |ps| >= 1 && (depths[t] < 5 ==> |ps| == 1)
    requires EntryOf(stems[t], c) == None
    ensures SlotOk(WithStem(stems, t, PutLeaf(stems[t], c, ps)), depths, t, c2)
  {
    SlotAt(stems, depths, t, c2);
    PutLeafEntry(stems[t], c, ps, c2);
  }

  lemma PairsSlotOk<V>(stems: seq<MutStem<V>>, depths: seq<nat>, t: nat, c: Chunk, ps: seq<(Noun, V)>, c2: Chunk)
    requires Arena(stems, depths) && t < |stems| && |ps| >= 1 && (depths[t] < 5 ==> |ps| == 1)
    requires EntryOf(stems[t], c).Some? && EntryOf(stems[t], c).value.MLeaf?
    ensures SlotOk(WithStem(stems, t, PutPairs(stems[t], c, ps)), depths, t, c2)
  {
    SlotAt(stems, depths, t, c2);
    SlotAt(stems, depths, t, c);
    PutPairsEntry(stems[t], c, ps, c2);
  }

  /** The empty-slot round (hamt.rs:104-117), the invariant. */
  lemma EmptyArena<V>(stems: seq<MutStem<V>>, depths: seq<nat>, t: nat, c: Chunk, k: Noun, v: V)
    requires Arena(stems, depths) && t < |stems| && EntryOf(stems[t], c) == None
    ensures Arena(WithStem(stems, t, PutLeaf(stems[t], c, [(k, v)])), depths)
  {
    var stems' := WithStem(stems, t, PutLeaf(stems[t], c, [(k, v)]));
    forall c2: Chunk ensures SlotOk(stems', depths, t, c2) {
      LeafSlotOk(stems, depths, t, c, [(k, v)], c2);
    }
    assert depths[..|depths|] == depths;
    ArenaAfter(stems, depths, stems', depths, t);
  }

  /** The empty-slot round, the map: the key's path ends at an empty slot,
      which gets a one-pair leaf; the map now holds `k` with `v` and every
      other key as before. */
  lemma EmptyMap<V>(stems: seq<MutStem<V>>, depths: seq<nat>, t: nat, c: Chunk, mug: Mug, k: Noun, v: V)
    requires Arena(stems, depths) && t < |stems| && Reaches(stems, 0, 0, t, mug, k)
    requires c == ChunkAt(mug(k), depths[t]) && EntryOf(stems[t], c) == None
    ensures forall k2 :: Find(WithStem(stems, t, PutLeaf(stems[t], c, [(k, v)])), 0, 0, mug, k2)
                         == if k2 == k then Some(v) else Find(stems, 0, 0, mug, k2)
  {
    forall k2 ensures Find(WithStem(stems, t, PutLeaf(stems[t], c, [(k, v)])), 0, 0, mug, k2)
                      == if k2 == k then Some(v) else Find(stems, 0, 0, mug, k2) {
      EmptyKey(stems, depths, t, c, mug, k, v, k2);
    }
  }

  lemma EmptyKey<V>(stems: seq<MutStem<V>>, depths: seq<nat>, t: nat, c: Chunk, mug: Mug, k: Noun, v: V, k2: Noun)
    requires Arena(stems, depths) && t < |stems| && Reaches(stems, 0, 0, t, mug, k)
    requires c == ChunkAt(mug(k), depths[t]) && EntryOf(stems[t], c) == None
    ensures Find(WithStem(stems, t, PutLeaf(stems[t], c, [(k, v)])), 0, 0, mug, k2)
            == if k2 == k then Some(v) else Find(stems, 0, 0, mug, k2)
  {
    var stems' := WithStem(stems, t, PutLeaf(stems[t], c, [(k, v)]));
    WriteAt(stems, stems', depths, t, mug, k2);
    EmptyHere(stems, stems', depths, t, c, mug, k, v, k2);
  }

  /** The value `k2` gets at the written stem after the leaf in slot `c`
      changes from `ps` to `ps'`. */
  lemma PairsHere<V>(stems: seq<MutStem<V>>, stems': seq<MutStem<V>>, depths: seq<nat>, t: nat, c: Chunk,
                     ps: seq<(Noun, V)>, ps': seq<(Noun, V)>, mug: Mug, k: Noun, v: V, k2: Noun)
    requires Arena(stems, depths) && t < |stems| && c == ChunkAt(mug(k), depths[t]) && EntryOf(stems[t], c) == Some(MLeaf(ps))
    requires Sized(stems') && |stems'| == |stems| && stems'[t] == PutPairs(stems[t], c, ps')
    requires forall j | 0 <= j < |stems| && j != t :: stems'[j] == stems[j]
    requires FindValue(ps', k2) == if k2 == k then Some(v) else FindValue(ps, k2)
    ensures Find(stems', t, depths[t], mug, k2) == if k2 == k then Some(v) else Find(stems, t, depths[t], mug, k2)
  {
    var c2 := ChunkAt(mug(k2), depths[t]);
    PutPairsEntry(stems[t], c, ps', c2);
    if c2 != c {
      OtherSlot(stems, stems', depths, t, mug, k2);
    }
  }

  /** The rounds that end at the key's leaf (hamt.rs:122-141), the
      invariant: a leaf keeps one pair above depth 5. */
  lemma LeafArena<V>(stems: seq<MutStem<V>>, depths: seq<nat>, t: nat, c: Chunk, ps': seq<(Noun, V)>)
    requires Arena(stems, depths) && t < |stems| && EntryOf(stems[t], c).Some? && EntryOf(stems[t], c).value.MLeaf?
    requires |ps'| >= 1 && (depths[t] < 5 ==> |ps'| == 1)
    ensures Arena(WithStem(stems, t, PutPairs(stems[t], c, ps')), depths)
  {
    var stems' := WithStem(stems, t, PutPairs(stems[t], c, ps'));
    forall c2: Chunk ensures SlotOk(stems', depths, t, c2) {
      PairsSlotOk(stems, depths, t, c, ps', c2);
    }
    assert depths[..|depths|] == depths;
    ArenaAfter(stems, depths, stems', depths, t);
  }

  /** The rounds that end at the key's leaf, the map: its pairs become
      `ps'`, which hold `k` with `v` and every other key as `ps` does; the
      map changes in the same way. */
  lemma LeafMap<V>(stems: seq<MutStem<V>>, depths: seq<nat>, t: nat, c: Chunk, ps: seq<(Noun, V)>, ps': seq<(Noun, V)>,
                   mug: Mug, k: Noun, v: V)
    requires Arena(stems, depths) && t < |stems| && Reaches(stems, 0, 0, t, mug, k)
    requires c == ChunkAt(mug(k), depths[t]) && EntryOf(stems[t], c) == Some(MLeaf(ps))
    requires forall k2 :: FindValue(ps', k2) == if k2 == k then Some(v) else FindValue(ps, k2)
    ensures forall k2 :: Find(WithStem(stems, t, PutPairs(stems[t], c, ps')), 0, 0, mug, k2)
                         == if k2 == k then Some(v) else Find(stems, 0, 0, mug, k2)
  {
    forall k2 ensures Find(WithStem(stems, t, PutPairs(stems[t], c, ps')), 0, 0, mug, k2)
                      == if k2 == k then Some(v) else Find(stems, 0, 0, mug, k2) {
      LeafKey(stems, depths, t, c, ps, ps', mug, k, v, k2);
    }
  }

  lemma LeafKey<V>(stems: seq<MutStem<V>>, depths: seq<nat>, t: nat, c: Chunk, ps: seq<(Noun, V)>, ps': seq<(Noun, V)>,
                   mug: Mug, k: Noun, v: V, k2: Noun)
    requires Arena(stems, depths) && t < |stems| && Reaches(stems, 0, 0, t, mug, k)
    requires c == ChunkAt(mug(k), depths[t]) && EntryOf(stems[t], c) == Some(MLeaf(ps))
    requires FindValue(ps', k2) == if k2 == k then Some(v) else FindValue(ps, k2)
    ensures Find(WithStem(stems, t, PutPairs(stems[t], c, ps')), 0, 0, mug, k2)
            == if k2 == k then Some(v) else Find(stems, 0, 0, mug, k2)
  {
    var stems' := WithStem(stems, t, PutPairs(stems[t], c, ps'));
    WriteAt(stems, stems', depths, t, mug, k2);
    PairsHere(stems, stems', depths, t, c, ps, ps', mug, k, v, k2);
  }

  /** The value `k2` gets at the written stem after a push-down: the
      same, since the only key of the leaf is found under its own chunk in
      the new stem. */
  lemma PushHere<V>(stems: seq<MutStem<V>>, depths: seq<nat>, t: nat, c: Chunk, ps: seq<(Noun, V)>, mug: Mug, k2: Noun)
    requires Arena(stems, depths) && t < |stems| && depths[t] < 5 && EntryOf(stems[t], c) == Some(MLeaf(ps)) && |ps| == 1
    ensures
      var stems' := Pushed(stems, t, c, ps, ChunkAt(mug(ps[0].0), depths[t] + 1));
      Find(stems', t, depths[t], mug, k2) == Find(stems, t, depths[t], mug, k2)
  {
    var lc := ChunkAt(mug(ps[0].0), depths[t] + 1);
    var stems' := Pushed(stems, t, c, ps, lc);
    var n := |stems|;
    var c2 := ChunkAt(mug(k2), depths[t]);
    PutStemEntry(stems[t], c, n, c2);
    if c2 == c {
      var c3 := ChunkAt(mug(k2), depths[t] + 1);
      assert Find(stems', t, depths[t], mug, k2) == Find(stems', n, depths[t] + 1, mug, k2);
      assert Find(stems', n, depths[t] + 1, mug, k2) == FindVia(stems', n, depths[t] + 1, EntryOf(PushStem(ps, lc), c3), mug, k2);
      PushStemEntry(ps, lc, c3);
      assert ps == [(ps[0].0, ps[0].1)];
      FindValueSingle(ps[0].0, ps[0].1, k2);
    } else {
      OtherSlot(stems, stems', depths, t, mug, k2);
    }
  }

  /** The stem written by a push-down keeps its slots' invariant. */
  lemma PushSlotOk<V>(stems: seq<MutStem<V>>, depths: seq<nat>, t: nat, c: Chunk, ps: seq<(Noun, V)>, lc: Chunk, c2: Chunk)
    requires Arena(stems, depths) && t < |stems| && depths[t] < 5 && EntryOf(stems[t], c) == Some(MLeaf(ps))
    ensures SlotOk(Pushed(stems, t, c, ps, lc), depths + [depths[t] + 1], t, c2)
  {
    SlotAt(stems, depths, t, c2);
    SlotAt(stems, depths, t, c);
    PutStemEntry(stems[t], c, |stems|, c2);
    var depths' := depths + [depths[t] + 1];
    assert depths'[t] == depths[t];
    match EntryOf(stems[t], c2)
    case Some(MStem(j)) =>
      assert depths'[j] == depths[j];
    case _ =>
  }

  /** The fresh stem of a push-down: its one slot holds the one-pair leaf. */
  lemma FreshSlotOk<V>(stems: seq<MutStem<V>>, depths: seq<nat>, t: nat, c: Chunk, ps: seq<(Noun, V)>, lc: Chunk, c2: Chunk)
    requires Sized(stems) && |depths| == |stems| && t < |stems| && |ps| == 1
    ensures SlotOk(Pushed(stems, t, c, ps, lc), depths + [depths[t] + 1], |stems|, c2)
  {
    PushStemEntry(ps, lc, c2);
  }

  /** The push-down round (hamt.rs:142-155), the invariant: below depth 5
      the one-pair leaf in the key's slot moves into a fresh stem one level
      deeper, under the chunk its own key has there. */
  lemma PushArena<V>(stems: seq<MutStem<V>>, depths: seq<nat>, t: nat, c: Chunk, ps: seq<(Noun, V)>, lc: Chunk)
    requires Arena(stems, depths) && t < |stems| && depths[t] < 5 && EntryOf(stems[t], c) == Some(MLeaf(ps))
    ensures |ps| == 1
    ensures Arena(Pushed(stems, t, c, ps, lc), depths + [depths[t] + 1])
  {
    SlotAt(stems, depths, t, c);
    var stems' := Pushed(stems, t, c, ps, lc);
    var depths' := depths + [depths[t] + 1];
    forall c2: Chunk ensures SlotOk(stems', depths', t, c2) {
      PushSlotOk(stems, depths, t, c, ps, lc, c2);
    }
    forall i, c2: Chunk | |stems| <= i < |stems'| ensures SlotOk(stems', depths', i, c2) {
      FreshSlotOk(stems, depths, t, c, ps, lc, c2);
    }
    assert depths'[..|depths|] == depths;
    ArenaAfter(stems, depths, stems', depths', t);
  }

  /** The push-down round, the map: the same pairs, and the key's path now
      reaches the new stem, where the walk goes on. */
  lemma PushMap<V>(stems: seq<MutStem<V>>, depths: seq<nat>, t: nat, c: Chunk, ps: seq<(Noun, V)>, mug: Mug, k: Noun)
    requires Arena(stems, depths) && t < |stems| && Reaches(stems, 0, 0, t, mug, k) && depths[t] < 5
    requires c == ChunkAt(mug(k), depths[t]) && EntryOf(stems[t], c) == Some(MLeaf(ps)) && |ps| == 1
    requires Arena(Pushed(stems, t, c, ps, ChunkAt(mug(ps[0].0), depths[t] + 1)), depths + [depths[t] + 1])
    ensures
      var stems' := Pushed(stems, t, c, ps, ChunkAt(mug(ps[0].0), depths[t] + 1));
      && Reaches(stems', 0, 0, |stems|, mug, k)
      && forall k2 :: Find(stems', 0, 0, mug, k2) == Find(stems, 0, 0, mug, k2)
  {
    var stems' := Pushed(stems, t, c, ps, ChunkAt(mug(ps[0].0), depths[t] + 1));
    var depths' := depths + [depths[t] + 1];
    ReachKeep(stems, stems', 0, 0, t, mug, k);
    PutStemEntry(stems[t], c, |stems|, c);
    assert depths'[t] == depths[t] && depths'[0] == 0;
    ReachStep(stems', depths', 0, t, |stems|, mug, k);
    forall k2 ensures Find(stems', 0, 0, mug, k2) == Find(stems, 0, 0, mug, k2) {
      PushKey(stems, depths, t, c, ps, mug, k2);
    }
  }

  lemma PushKey<V>(stems: seq<MutStem<V>>, depths: seq<nat>, t: nat, c: Chunk, ps: seq<(Noun, V)>, mug: Mug, k2: Noun)
    requires Arena(stems, depths) && t < |stems| && depths[t] < 5 && EntryOf(stems[t], c) == Some(MLeaf(ps)) && |ps| == 1
    ensures Find(Pushed(stems, t, c, ps, ChunkAt(mug(ps[0].0), depths[t] + 1)), 0, 0, mug, k2) == Find(stems, 0, 0, mug, k2)
  {
    var stems' := Pushed(stems, t, c, ps, ChunkAt(mug(ps[0].0), depths[t] + 1));
    WriteAt(stems, stems', depths, t, mug, k2);
    PushHere(stems, depths, t, c, ps, mug, k2);
  }

  // ---------------------------------------------------------------------
  // The map.

  /** `MutHamt`: the arena of stems, the root being stem 0, and the hash
      every operation uses. */
  class MutHamt<V> {
    const mug: Mug
    var stems: seq<MutStem<V>>
    ghost var depths: seq<nat>

    ghost predicate Valid()
      reads this
    {
      Arena(stems, depths)
    }

    /** What the map holds for `k`. */
    ghost function Get(k: Noun): Option<V>
      reads this
      requires Valid()
    {
      Find(stems, 0, 0, mug, k)
    }

    /** `MutHamt::new`: one stem with empty bitmaps. */
    constructor (mug: Mug)
      ensures Valid() && this.mug == mug
      ensures forall k :: Get(k) == None
    {
      this.mug := mug;
      stems := NewArena();
      depths := [0];
      new;
      forall k ensures Get(k) == None {
        FindNew<V>(mug, k);
      }
    }

    /** `MutHamt::lookup`: follow the key's chunks from the root, through
        the stems the typemap marks, to an empty slot or a leaf. */
    method Lookup(k: Noun) returns (r: Option<V>)
      requires Valid()
      ensures r == Get(k)
    {
      var stem: nat := 0;
      var bits := mug(k);
      ghost var d: nat := 0;
      MugBitsZero(bits);
      while true
        invariant stem < |stems| && d == depths[stem] && bits == MugBits(mug(k), d)
        invariant Find(stems, stem, d, mug, k) == Get(k)
        decreases 5 - d
      {
        MugBitsNext(mug(k), d);
        var chunk := LowChunk(bits);
        bits := DropChunk(bits);
        var s := stems[stem];
        SlotAt(stems, depths, stem, chunk);
        if !Bit(s.bitmap, chunk) {
          return None;
        }
        if Bit(s.typemap, chunk) {
          stem := At(s.buffer, chunk).ptr;
          d := d + 1;
        } else {
          var ps := At(s.buffer, chunk).pairs;
          var j := HamtWalk.ScanLeaf(ps, k);
          if j.Some? {
            return Some(ps[j.value].1);
          }
          return None;
        }
      }
    }

    /** `MutHamt::insert`: walk the key's path, pushing colliding one-pair
        leaves down a level until depth 5, then write the pair into the
        slot it ends at: a new leaf in an empty slot, the new value over an
        equal key, or, at depth 5, a chain one pair longer. */
    method Insert(k: Noun, v: V)
      requires Valid()
      modifies this
      ensures Valid()
      ensures forall k2 :: Get(k2) == if k2 == k then Some(v) else old(Get(k2))
    {
      var stem: nat := 0;
      var bits := mug(k);
      var depth: nat := 0;
      MugBitsZero(bits);
      while true
        invariant Valid() && stem < |stems| && depth == depths[stem] && bits == MugBits(mug(k), depth)
        invariant Reaches(stems, 0, 0, stem, mug, k)
        invariant forall k2 :: Get(k2) == old(Get(k2))
        decreases 5 - depth
      {
        MugBitsNext(mug(k), depth);
        var chunk := LowChunk(bits);
        bits := DropChunk(bits);
        var done;
        done, stem := InsertRound(stem, depth, chunk, k, v);
        if done {
          return;
        }
        depth := depth + 1;
      }
    }

    /** One round of the insert loop at stem `stem`, slot `chunk`: write
        the pair into an empty slot and stop, or go on into the stem the
        slot points at, or handle the leaf there. */
    method InsertRound(stem: nat, depth: nat, chunk: Chunk, k: Noun, v: V) returns (done: bool, next: nat)
      requires Valid() && stem < |stems| && depth == depths[stem] && chunk == ChunkAt(mug(k), depth)
      requires Reaches(stems, 0, 0, stem, mug, k)
      modifies this
      ensures Valid()
      ensures done ==> forall k2 :: Get(k2) == if k2 == k then Some(v) else old(Get(k2))
      ensures !done ==> && next < |stems| && depths[next] == depth + 1 && Reaches(stems, 0, 0, next, mug, k)
                        && forall k2 :: Get(k2) == old(Get(k2))
    {
      var s := stems[stem];
      SlotAt(stems, depths, stem, chunk);
      if !Bit(s.bitmap, chunk) {
        EmptyArena(stems, depths, stem, chunk, k, v);
        EmptyMap(stems, depths, stem, chunk, mug, k, v);
        stems := WithStem(stems, stem, PutLeaf(s, chunk, [(k, v)]));
        return true, stem;
      }
      if Bit(s.typemap, chunk) {
        next := At(s.buffer, chunk).ptr;
        ReachStep(stems, depths, 0, stem, next, mug, k);
        return false, next;
      }
      done, next := InsertAtLeaf(stem, depth, chunk, At(s.buffer, chunk).pairs, k, v);
    }

    /** The round that finds a leaf in the key's slot: overwrite the value
        of an equal key, or at depth 5 chain the pair onto the leaf, or
        push the one-pair leaf down into a fresh stem and go on there. */
    method InsertAtLeaf(stem: nat, depth: nat, chunk: Chunk, ps: seq<(Noun, V)>, k: Noun, v: V) returns (done: bool, next: nat)
      requires Valid() && stem < |stems| && depth == depths[stem] && chunk == ChunkAt(mug(k), depth)
      requires Reaches(stems, 0, 0, stem, mug, k) && EntryOf(stems[stem], chunk) == Some(MLeaf(ps))
      modifies this
      ensures Valid()
      ensures done ==> forall k2 :: Get(k2) == if k2 == k then Some(v) else old(Get(k2))
      ensures !done ==> && next < |stems| && depths[next] == depth + 1 && Reaches(stems, 0, 0, next, mug, k)
                        && forall k2 :: Get(k2) == old(Get(k2))
      ensures FindKey(ps, k).Some? ==>
        done && stem < |stems| && EntryOf(stems[stem], chunk) == Some(MLeaf(ps[FindKey(ps, k).value := (k, v)]))
      ensures FindKey(ps, k).None? && depth >= 5 ==> done && stem < |stems| && EntryOf(stems[stem], chunk) == Some(MLeaf(ps + [(k, v)]))
      ensures FindKey(ps, k).None? && depth < 5 ==> !done
    {
      SlotAt(stems, depths, stem, chunk);
      ghost var s0 := stems[stem];
      var j := HamtWalk.ScanLeaf(ps, k);
      if j.Some? {
        var ps' := ps[j.value := (ps[j.value].0, v)];
        forall k2 ensures FindValue(ps', k2) == if k2 == k then Some(v) else FindValue(ps, k2) {
          FindValueUpdate(ps, j.value, k, v, k2);
        }
        WriteLeaf(stem, chunk, ps, ps', k, v);
        PutPairsEntry(s0, chunk, ps', chunk);
        return true, stem;
      }
      if depth >= 5 {
        var ps' := ps + [(k, v)];
        forall k2 ensures FindValue(ps', k2) == if k2 == k then Some(v) else FindValue(ps, k2) {
          FindValueAppend(ps, k, v, k2);
        }
        WriteLeaf(stem, chunk, ps, ps', k, v);
        PutPairsEntry(s0, chunk, ps', chunk);
        return true, stem;
      }
      next := PushDown(stem, depth, chunk, ps, k);
      return false, next;
    }

    /** Overwrite the leaf in the key's slot with `ps'`, the pairs of `ps`
        with `k` now holding `v`. */
    method WriteLeaf(stem: nat, chunk: Chunk, ps: seq<(Noun, V)>, ps': seq<(Noun, V)>, k: Noun, v: V)
      requires Valid() && stem < |stems| && chunk == ChunkAt(mug(k), depths[stem])
      requires Reaches(stems, 0, 0, stem, mug, k) && EntryOf(stems[stem], chunk) == Some(MLeaf(ps))
      requires |ps'| >= 1 && (depths[stem] < 5 ==> |ps'| == 1)
      requires forall k2 :: FindValue(ps', k2) == if k2 == k then Some(v) else FindValue(ps, k2)
      modifies this
      ensures Valid() && stems == old(stems[stem := PutPairs(stems[stem], chunk, ps')])
      ensures forall k2 :: Get(k2) == if k2 == k then Some(v) else old(Get(k2))
    {
      LeafArena(stems, depths, stem, chunk, ps');
      LeafMap(stems, depths, stem, chunk, ps, ps', mug, k, v);
      stems := WithStem(stems, stem, PutPairs(stems[stem], chunk, ps'));
    }

    /** Below depth 5: move the one-pair leaf (`assert!(leaf.len == 1)`,
        which the invariant guarantees) into a fresh stem under the chunk
        its own key has one level down, point the slot at that stem, and
        return it. */
    method PushDown(stem: nat, depth: nat, chunk: Chunk, ps: seq<(Noun, V)>, k: Noun) returns (next: nat)
      requires Valid() && stem < |stems| && depth == depths[stem] < 5 && chunk == ChunkAt(mug(k), depth)
      requires Reaches(stems, 0, 0, stem, mug, k) && EntryOf(stems[stem], chunk) == Some(MLeaf(ps))
      modifies this
      ensures Valid() && next < |stems| && depths[next] == depth + 1 && Reaches(stems, 0, 0, next, mug, k)
      ensures forall k2 :: Get(k2) == old(Get(k2))
    {
      SlotAt(stems, depths, stem, chunk);
      assert |ps| == 1;
      var leafChunk := ChunkAt(mug(ps[0].0), depth + 1);
      PushArena(stems, depths, stem, chunk, ps, leafChunk);
      PushMap(stems, depths, stem, chunk, ps, mug, k);
      next := |stems|;
      stems := Pushed(stems, stem, chunk, ps, leafChunk);
      depths := depths + [depth + 1];
    }
  }
}
