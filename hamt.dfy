/** The persistent hash array mapped trie of rust/ares/src/hamt.rs: a 32-way
    trie over the 32-bit mug of a key, five mug bits per level. A stem keeps
    an occupancy `bitmap`, a `typemap` saying which occupied slots hold stems,
    and a dense buffer of entries in slot order; a leaf is a run of
    (key, value) pairs of which the first `len` are live. Below depth 5 a leaf
    holds one pair; at depth 5 colliding keys are chained in a leaf.

    Every buffer carries the number of the stack frame it was allocated in
    (0 for the null buffer of the empty map); `preserve` (hamt_preserve.dfy)
    reads these tags. */
module Hamt {
  import opened Nouns
  import opened Bits32

  /** `mug_u32`: an arbitrary hash from nouns to 32 bits. */
  type Mug = Noun -> bv32

  datatype Leaf<V> = Leaf(frame: nat, len: nat, buffer: seq<(Noun, V)>)

  /** The union `Entry`, tagged; the stem's typemap says which tag is there. */
  datatype Entry<V> = EStem(stem: Stem<V>) | ELeaf(leaf: Leaf<V>)

  datatype Stem<V> = Stem(bitmap: bv32, typemap: bv32, frame: nat, buffer: seq<Entry<V>>)

  datatype HamtMap<V> = HamtMap(root: Stem<V>)

  /** `Leaf::to_mut_slice`: the live pairs. */
  function LivePairs<V>(l: Leaf<V>): seq<(Noun, V)>
    requires l.len <= |l.buffer|
  {
    l.buffer[..l.len]
  }

  // ---------------------------------------------------------------------
  // The structural invariant.

  /** A stem at depth `d` as the operations build it: at most depth 5, a
      buffer of exactly `size()` entries, each occupied slot stored at its
      hypothetical index with the typemap agreeing with the entry's tag,
      stems only above depth 5, and non-empty leaves that hold one pair
      above depth 5. */
  ghost predicate Shaped<V>(s: Stem<V>, d: nat)
    decreases s
  {
    && d <= 5
    && |s.buffer| == PopCount(s.bitmap)
    && (forall c: Chunk {:trigger Occupied(s, c)} :: Occupied(s, c) ==>
          HypotheticalIndex(s.bitmap, c) < |s.buffer|
          && (Bit(s.typemap, c) <==> s.buffer[HypotheticalIndex(s.bitmap, c)].EStem?))
    && (forall i | 0 <= i < |s.buffer| :: EntryShaped(s.buffer[i], d))
  }

  /** Slot `c` of the stem is occupied. */
  predicate Occupied<V>(s: Stem<V>, c: Chunk)
  {
    Bit(s.bitmap, c)
  }

  ghost predicate EntryShaped<V>(e: Entry<V>, d: nat)
    decreases e
  {
    match e
    case EStem(t) => d < 5 && Shaped(t, d + 1)
    case ELeaf(l) => 1 <= l.len <= |l.buffer| && (d < 5 ==> l.len == 1)
  }

  /** The entry of an occupied slot is in the buffer and shaped. */
  lemma SlotShaped<V>(s: Stem<V>, d: nat, c: Chunk)
    requires Shaped(s, d) && Bit(s.bitmap, c)
    ensures HypotheticalIndex(s.bitmap, c) < |s.buffer|
    ensures EntryShaped(s.buffer[HypotheticalIndex(s.bitmap, c)], d)
    ensures Bit(s.typemap, c) <==> s.buffer[HypotheticalIndex(s.bitmap, c)].EStem?
  {
    assert Occupied(s, c);
  }

  /** `Stem::entry`: the entry stored for a slot and its index. */
  function EntryAt<V>(s: Stem<V>, ghost d: nat, c: Chunk): (r: Option<(Entry<V>, nat)>)
    requires Shaped(s, d)
    ensures r.Some? <==> Bit(s.bitmap, c)
    ensures r.Some? ==>
      (r.value.1 == HypotheticalIndex(s.bitmap, c) && r.value.1 < |s.buffer|
       && r.value.0 == s.buffer[r.value.1] && (Bit(s.typemap, c) <==> r.value.0.EStem?))
  {
    match Index(s.bitmap, c)
    case None => None
    case Some(idx) =>
      SlotShaped(s, d, c);
      Some((s.buffer[idx], idx))
  }

  /** The first live pair whose key is `k` (the unifying-equality scan). */
  function FindKey<V>(ps: seq<(Noun, V)>, k: Noun): (r: Option<nat>)
    ensures r.Some? ==>
      (r.value < |ps| && ps[r.value].0 == k && forall j | 0 <= j < r.value :: ps[j].0 != k)
    ensures r.None? ==> forall j | 0 <= j < |ps| :: ps[j].0 != k
  {
    if ps == [] then None
    else if ps[0].0 == k then Some(0)
    else
      match FindKey(ps[1..], k)
      case None => None
      case Some(j) => Some(j + 1)
  }

  function FindValue<V>(ps: seq<(Noun, V)>, k: Noun): Option<V>
  {
    match FindKey(ps, k)
    case None => None
    case Some(j) => Some(ps[j].1)
  }

  // ---------------------------------------------------------------------
  // Lookup.

  /** The entry stored at slot `c`, if the slot is occupied. */
  function Child<V>(s: Stem<V>, ghost d: nat, c: Chunk): (r: Option<Entry<V>>)
    requires Shaped(s, d)
    ensures r.Some? <==> Bit(s.bitmap, c)
    ensures r.Some? ==>
      HypotheticalIndex(s.bitmap, c) < |s.buffer| && r.value == s.buffer[HypotheticalIndex(s.bitmap, c)]
      && EntryShaped(r.value, d)
  {
    match EntryAt(s, d, c)
    case None => None
    case Some(p) =>
      SlotShaped(s, d, c);
      Some(p.0)
  }

  /** Lookup from a stem at depth `d`: follow the key's chunk at each level
      until an empty slot (absent) or a leaf (scan its live pairs). */
  function LookupIn<V>(s: Stem<V>, d: nat, mug: Mug, k: Noun): Option<V>
    requires Shaped(s, d)
    decreases s
  {
    match Child(s, d, ChunkAt(mug(k), d))
    case None => None
    case Some(e) =>
      match e
      case EStem(t) => LookupIn(t, d + 1, mug, k)
      case ELeaf(l) => FindValue(LivePairs(l), k)
  }

  function Lookup<V>(m: HamtMap<V>, mug: Mug, k: Noun): Option<V>
    requires Shaped(m.root, 0)
  {
    LookupIn(m.root, 0, mug, k)
  }

  /** `Hamt::new`: an empty bitmap over the null buffer. */
  function Empty<V>(): (r: HamtMap<V>)
    ensures Shaped(r.root, 0) && r.root.bitmap == 0
  {
    ZeroBits();
    HamtMap(Stem(0, 0, 0, []))
  }

  lemma LookupEmpty<V>(mug: Mug, k: Noun)
    ensures Lookup(Empty<V>(), mug, k) == None
  {
    ZeroBit(ChunkAt(mug(k), 0));
  }

  // ---------------------------------------------------------------------
  // Insert.

  /** Copy-on-write insert below a stem at depth `d`; every buffer on the
      path is a fresh copy allocated in frame `f`, every other buffer is
      shared. `asWritten` selects what the source does when a key is chained
      onto a depth-5 leaf: it writes the new pair after the old ones but keeps
      the old `len` (hamt.rs:379-395); otherwise `len` grows by one. */
  function InsertIn<V>(s: Stem<V>, d: nat, mug: Mug, k: Noun, v: V, f: nat, asWritten: bool): (r: Stem<V>)
    requires Shaped(s, d)
    ensures Shaped(r, d)
    decreases 5 - d, 2
  {
    var c := ChunkAt(mug(k), d);
    if !Bit(s.bitmap, c) then InsertEmpty(s, d, c, k, v, f)
    else InsertAtSlot(s, d, c, mug, k, v, f, asWritten)
  }

  /** Insert into the empty slot `c`: mark it in the bitmap, clear it in the
      typemap and splice a one-pair leaf in at its hypothetical index. */
  function InsertEmpty<V>(s: Stem<V>, d: nat, c: Chunk, k: Noun, v: V, f: nat): (r: Stem<V>)
    requires Shaped(s, d) && !Bit(s.bitmap, c)
    ensures Shaped(r, d)
  {
    var split := HypotheticalIndex(s.bitmap, c);
    var leaf := ELeaf(Leaf(f, 1, [(k, v)]));
    SpliceShaped(s, d, c, leaf, f);
    Stem(SetSlot(s.bitmap, c), ClearSlot(s.typemap, c), f, s.buffer[..split] + [leaf] + s.buffer[split..])
  }

  /** Insert through the occupied slot `c`: descend into a stem, or resolve
      against a leaf. */
  function InsertAtSlot<V>(s: Stem<V>, d: nat, c: Chunk, mug: Mug, k: Noun, v: V, f: nat, asWritten: bool): (r: Stem<V>)
    requires Shaped(s, d) && Bit(s.bitmap, c) && c == ChunkAt(mug(k), d)
    ensures Shaped(r, d)
    ensures r.bitmap == s.bitmap && r.frame == f && |r.buffer| == |s.buffer|
    ensures forall i | 0 <= i < |s.buffer| && i != HypotheticalIndex(s.bitmap, c) :: r.buffer[i] == s.buffer[i]
    decreases 5 - d, 1
  {
    var idx := HypotheticalIndex(s.bitmap, c);
    SlotShaped(s, d, c);
    match s.buffer[idx]
    case EStem(t) =>
      var e := EStem(InsertIn(t, d + 1, mug, k, v, f, asWritten));
      ReplaceShaped(s, d, c, e, s.typemap, f);
      Stem(s.bitmap, s.typemap, f, s.buffer[idx := e])
    case ELeaf(l) =>
      InsertAtLeaf(s, d, c, l, mug, k, v, f, asWritten)
  }

  /** Insert into the leaf `l` stored at the occupied slot `c`. */
  function InsertAtLeaf<V>(s: Stem<V>, d: nat, c: Chunk, l: Leaf<V>, mug: Mug, k: Noun, v: V, f: nat, asWritten: bool): (r: Stem<V>)
    requires Shaped(s, d) && Bit(s.bitmap, c) && c == ChunkAt(mug(k), d)
    requires HypotheticalIndex(s.bitmap, c) < |s.buffer| && s.buffer[HypotheticalIndex(s.bitmap, c)] == ELeaf(l)
    ensures Shaped(r, d)
    ensures r.bitmap == s.bitmap && r.frame == f && |r.buffer| == |s.buffer|
    ensures forall i | 0 <= i < |s.buffer| && i != HypotheticalIndex(s.bitmap, c) :: r.buffer[i] == s.buffer[i]
    decreases 5 - d, 0
  {
    var idx := HypotheticalIndex(s.bitmap, c);
    SlotShaped(s, d, c);
    var ps := LivePairs(l);
    match FindKey(ps, k)
    case Some(ldx) =>
      // the key is present: a copy of the leaf with only that value replaced
      var e := ELeaf(Leaf(f, l.len, ps[ldx := (ps[ldx].0, v)]));
      ReplaceShaped(s, d, c, e, s.typemap, f);
      Stem(s.bitmap, s.typemap, f, s.buffer[idx := e])
    case None =>
      if d >= 5 then
        // depth limit: chain the new pair after the old ones
        var e := ELeaf(Leaf(f, if asWritten then l.len else l.len + 1, ps + [(k, v)]));
        ReplaceShaped(s, d, c, e, s.typemap, f);
        Stem(s.bitmap, s.typemap, f, s.buffer[idx := e])
      else
        // push the old one-pair leaf down into a fake stem keyed by the
        // next five bits of its own mug, and insert into that
        var fake := FakeStem(l, mug, d, f);
        var e := EStem(InsertIn(fake, d + 1, mug, k, v, f, asWritten));
        SetSlotBits(s.typemap, c);
        ReplaceShaped(s, d, c, e, SetSlot(s.typemap, c), f);
        Stem(s.bitmap, SetSlot(s.typemap, c), f, s.buffer[idx := e])
  }

  /** The single-entry stem that replaces a one-pair leaf at depth `d`. */
  function FakeStem<V>(l: Leaf<V>, mug: Mug, d: nat, f: nat): (r: Stem<V>)
    requires d < 5 && l.len == 1 && |l.buffer| >= 1
    ensures Shaped(r, d + 1)
  {
    var fc := ChunkAt(mug(l.buffer[0].0), d + 1);
    PopCountSingle(fc);
    CountSingle(fc, fc);
    IndexIsCount(ChunkToBit(fc), fc);
    forall c': Chunk ensures Bit(ChunkToBit(fc), c') <==> c' == fc {
      ToBitBit(fc, c');
    }
    forall c': Chunk ensures !Bit(0, c') {
      ZeroBit(c');
    }
    Stem(ChunkToBit(fc), 0, f, [ELeaf(l)])
  }

  function Insert<V>(m: HamtMap<V>, mug: Mug, k: Noun, v: V, f: nat): (r: HamtMap<V>)
    requires Shaped(m.root, 0)
    ensures Shaped(r.root, 0)
  {
    HamtMap(InsertIn(m.root, 0, mug, k, v, f, false))
  }

  /** `Hamt::insert` exactly as written, keeping the old `len` when it
      chains a key onto a depth-5 leaf. */
  function InsertAsWritten<V>(m: HamtMap<V>, mug: Mug, k: Noun, v: V, f: nat): (r: HamtMap<V>)
    requires Shaped(m.root, 0)
    ensures Shaped(r.root, 0)
  {
    HamtMap(InsertIn(m.root, 0, mug, k, v, f, true))
  }

  // ---------------------------------------------------------------------
  // Shape preservation of the two buffer edits.

  /** Overwriting one occupied slot's entry keeps the stem shaped when the
      typemap is updated to the new entry's tag. */
  lemma ReplaceShaped<V>(s: Stem<V>, d: nat, c: Chunk, e: Entry<V>, tm: bv32, f: nat)
    requires Shaped(s, d) && Bit(s.bitmap, c) && EntryShaped(e, d)
    requires Bit(tm, c) <==> e.EStem?
    requires forall c': Chunk | c' != c :: Bit(tm, c') == Bit(s.typemap, c')
    ensures HypotheticalIndex(s.bitmap, c) < |s.buffer|
    ensures Shaped(Stem(s.bitmap, tm, f, s.buffer[HypotheticalIndex(s.bitmap, c) := e]), d)
  {
    SlotShaped(s, d, c);
    var idx := HypotheticalIndex(s.bitmap, c);
    var s' := Stem(s.bitmap, tm, f, s.buffer[idx := e]);
    forall c': Chunk | Occupied(s', c')
      ensures HypotheticalIndex(s.bitmap, c') < |s'.buffer|
      ensures Bit(tm, c') <==> s'.buffer[HypotheticalIndex(s.bitmap, c')].EStem?
    {
      ReplaceSlot(s, d, c, e, tm, c');
    }
  }

  lemma ReplaceSlot<V>(s: Stem<V>, d: nat, c: Chunk, e: Entry<V>, tm: bv32, c': Chunk)
    requires Shaped(s, d) && Bit(s.bitmap, c) && Bit(s.bitmap, c')
    requires Bit(tm, c) <==> e.EStem?
    requires forall c': Chunk | c' != c :: Bit(tm, c') == Bit(s.typemap, c')
    ensures HypotheticalIndex(s.bitmap, c) < |s.buffer| && HypotheticalIndex(s.bitmap, c') < |s.buffer|
    ensures
      var buf := s.buffer[HypotheticalIndex(s.bitmap, c) := e];
      Bit(tm, c') <==> buf[HypotheticalIndex(s.bitmap, c')].EStem?
  {
    SlotShaped(s, d, c);
    SlotShaped(s, d, c');
    if c' < c {
      IndexOrdered(s.bitmap, c', c);
    } else if c < c' {
      IndexOrdered(s.bitmap, c, c');
    }
  }

  /** Splicing a leaf into the empty slot `c` keeps the stem shaped once
      `c` is marked in the bitmap and cleared in the typemap. */
  lemma SpliceShaped<V>(s: Stem<V>, d: nat, c: Chunk, e: Entry<V>, f: nat)
    requires Shaped(s, d) && !Bit(s.bitmap, c) && EntryShaped(e, d) && e.ELeaf?
    ensures HypotheticalIndex(s.bitmap, c) <= |s.buffer|
    ensures
      var j := HypotheticalIndex(s.bitmap, c);
      Shaped(Stem(SetSlot(s.bitmap, c), ClearSlot(s.typemap, c), f, s.buffer[..j] + [e] + s.buffer[j..]), d)
  {
    var bm, bm', tm' := s.bitmap, SetSlot(s.bitmap, c), ClearSlot(s.typemap, c);
    SetSlotBits(bm, c);
    ClearSlotBits(s.typemap, c);
    IndexAtMostSize(bm, c);
    var j := HypotheticalIndex(bm, c);
    var buf := s.buffer[..j] + [e] + s.buffer[j..];
    PopCountPlusOne(bm, bm', c);
    var s' := Stem(bm', tm', f, buf);
    forall c': Chunk | Occupied(s', c')
      ensures HypotheticalIndex(bm', c') < |buf|
      ensures Bit(tm', c') <==> buf[HypotheticalIndex(bm', c')].EStem?
    {
      SpliceSlot(s, d, c, e, bm', tm', c');
    }
    forall i | 0 <= i < |buf| ensures EntryShaped(buf[i], d) {
      if i < j {
        assert buf[i] == s.buffer[i];
      } else if i > j {
        assert buf[i] == s.buffer[i - 1];
      }
    }
  }

  lemma SpliceSlot<V>(s: Stem<V>, d: nat, c: Chunk, e: Entry<V>, bm': bv32, tm': bv32, c': Chunk)
    requires Shaped(s, d) && !Bit(s.bitmap, c) && e.ELeaf?
    requires forall i: Chunk :: Bit(bm', i) == (Bit(s.bitmap, i) || i == c)
    requires forall i: Chunk :: Bit(tm', i) == (Bit(s.typemap, i) && i != c)
    requires Bit(bm', c')
    ensures HypotheticalIndex(s.bitmap, c) <= |s.buffer|
    ensures
      var j := HypotheticalIndex(s.bitmap, c);
      var buf := s.buffer[..j] + [e] + s.buffer[j..];
      HypotheticalIndex(bm', c') < |buf| && (Bit(tm', c') <==> buf[HypotheticalIndex(bm', c')].EStem?)
  {
    var bm := s.bitmap;
    IndexAtMostSize(bm, c);
    var j := HypotheticalIndex(bm, c);
    SpliceIndex(bm, bm', c, c');
    assert Bit(tm', c') == (Bit(s.typemap, c') && c' != c);
    if c' != c {
      assert Bit(bm, c');
      SlotShaped(s, d, c');
      var i := HypotheticalIndex(bm, c');
      SpliceElem(s.buffer, j, e, i);
    } else {
      SpliceElem(s.buffer, j, e, j);
    }
  }

  /** Where the elements of a buffer land after one is spliced in at `j`. */
  lemma SpliceElem<T>(xs: seq<T>, j: nat, e: T, i: nat)
    requires j <= |xs| && i <= |xs|
    ensures |xs[..j] + [e] + xs[j..]| == |xs| + 1
    ensures (xs[..j] + [e] + xs[j..])[j] == e
    ensures i < j ==> (xs[..j] + [e] + xs[j..])[i] == xs[i]
    ensures j <= i < |xs| ==> (xs[..j] + [e] + xs[j..])[i + 1] == xs[i]
  {
  }

  /** Where an occupied slot's entry moves when the empty slot `c` is
      filled. */
  lemma SpliceIndex(bm: bv32, bm': bv32, c: Chunk, c': Chunk)
    requires !Bit(bm, c)
    requires forall i: Chunk :: Bit(bm', i) == (Bit(bm, i) || i == c)
    ensures HypotheticalIndex(bm', c) == HypotheticalIndex(bm, c)
    ensures Bit(bm, c') && c' < c ==>
      HypotheticalIndex(bm', c') == HypotheticalIndex(bm, c') < HypotheticalIndex(bm, c)
    ensures Bit(bm, c') && c < c' ==>
      HypotheticalIndex(bm', c') == HypotheticalIndex(bm, c') + 1
      && HypotheticalIndex(bm, c) <= HypotheticalIndex(bm, c')
  {
    CountPlusOne(bm, bm', c, c);
    CountPlusOne(bm, bm', c, c');
    if Bit(bm, c') && c' < c {
      IndexOrdered(bm, c', c);
    }
    if c < c' {
      CountMono(bm, c, c');
    }
  }
}
