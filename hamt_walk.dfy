/** `Hamt::lookup` and `Hamt::insert` as the step loops of hamt.rs: the mug
    is consumed five bits per round (`chunk = mug & 0x1f; mug >>= 5`), and
    the insert records the spine of fresh stem copies it writes through its
    `dest` pointer, linking each copy into its parent's copied buffer. */
module HamtWalk {
  import opened Nouns
  import opened Bits32
  import opened Hamt
  import opened HamtFacts

  /** The scan of a leaf's live pairs for the first key equal to `k`. */
  method ScanLeaf<V>(ps: seq<(Noun, V)>, k: Noun) returns (r: Option<nat>)
    ensures r == FindKey(ps, k)
  {
    var j := 0;
    while j < |ps|
      invariant 0 <= j <= |ps|
      invariant forall i | 0 <= i < j :: ps[i].0 != k
    {
      if ps[j].0 == k {
        return Some(j);
      }
      j := j + 1;
    }
    return None;
  }

  /** `Hamt::lookup`. */
  method LookupLoop<V>(m: HamtMap<V>, mug: Mug, k: Noun) returns (r: Option<V>)
    requires Shaped(m.root, 0)
    ensures r == Lookup(m, mug, k)
  {
    var stem := m.root;
    var bits := mug(k);
    ghost var d: nat := 0;
    MugBitsZero(bits);
    while true
      invariant d <= 5 && Shaped(stem, d)
      invariant bits == MugBits(mug(k), d)
      invariant LookupIn(stem, d, mug, k) == Lookup(m, mug, k)
      decreases 5 - d
    {
      MugBitsNext(mug(k), d);
      var chunk := LowChunk(bits);
      bits := DropChunk(bits);
      LookupStep(stem, d, mug, k);
      var ent := EntryAt(stem, d, chunk);
      if ent.None? {
        return None;
      }
      var e := ent.value.0;
      if e.EStem? {
        stem := e.stem;
        d := d + 1;
      } else {
        var ps := LivePairs(e.leaf);
        var j := ScanLeaf(ps, k);
        if j.Some? {
          return Some(ps[j.value].1);
        }
        return None;
      }
    }
  }

  // ---------------------------------------------------------------------
  // Insert.

  /** One fresh stem copy on the insert's path: the stem it copies, the
      typemap written into the copy, and the index whose entry `dest` points
      at. */
  datatype PathStep<V> = PathStep(stem: Stem<V>, typemap: bv32, idx: nat)

  predicate PathFits<V>(path: seq<PathStep<V>>)
  {
    forall i | 0 <= i < |path| :: path[i].idx < |path[i].stem.buffer|
  }

  /** The copy with the stem written through `dest`. */
  function Link<V>(p: PathStep<V>, f: nat, x: Stem<V>): Stem<V>
    requires p.idx < |p.stem.buffer|
  {
    Stem(p.stem.bitmap, p.typemap, f, p.stem.buffer[p.idx := EStem(x)])
  }

  /** The root once `x` has been written at the end of the path. */
  function Plug<V>(path: seq<PathStep<V>>, f: nat, x: Stem<V>): Stem<V>
    requires PathFits(path)
    decreases |path|
  {
    if path == [] then x
    else Plug(path[..|path| - 1], f, Link(path[|path| - 1], f, x))
  }

  lemma PlugSnoc<V>(path: seq<PathStep<V>>, p: PathStep<V>, f: nat, x: Stem<V>)
    requires PathFits(path) && p.idx < |p.stem.buffer|
    ensures PathFits(path + [p])
    ensures Plug(path + [p], f, x) == Plug(path, f, Link(p, f, x))
  {
    assert (path + [p])[..|path|] == path;
  }

  /** Linking the spine bottom-up: each copy's `dest` entry receives the
      copy below it. */
  method LinkPath<V>(path: seq<PathStep<V>>, f: nat, x: Stem<V>) returns (r: Stem<V>)
    requires PathFits(path)
    ensures r == Plug(path, f, x)
  {
    r := x;
    var i := |path|;
    assert path[..i] == path;
    while i > 0
      invariant 0 <= i <= |path| && PathFits(path[..i])
      invariant Plug(path[..i], f, r) == Plug(path, f, x)
    {
      assert path[..i][..i - 1] == path[..i - 1];
      r := Link(path[i - 1], f, r);
      i := i - 1;
    }
    assert path[..0] == [];
  }

  /** How one round of the insert loop ends: the last copy is written
      through `dest`, or a copy is linked and the walk goes on into `next`. */
  datatype Round<V> = Done(copy: Stem<V>) | Descend(step: PathStep<V>, next: Stem<V>)

  /** `Hamt::insert`: the loop of rounds, then the copies linked into the
      new root (`asWritten` selects the depth-5 chaining exactly as written,
      see `InsertIn`). */
  method InsertLoop<V>(m: HamtMap<V>, mug: Mug, k: Noun, v: V, f: nat, asWritten: bool) returns (r: HamtMap<V>)
    requires Shaped(m.root, 0)
    ensures r.root == InsertIn(m.root, 0, mug, k, v, f, asWritten)
  {
    var bits := mug(k);
    var depth: nat := 0;
    MugBitsZero(bits);
    var stem := m.root;
    var path: seq<PathStep<V>> := [];
    ghost var goal := InsertIn(m.root, 0, mug, k, v, f, asWritten);
    while true
      invariant depth <= 5 && Shaped(stem, depth) && PathFits(path)
      invariant bits == MugBits(mug(k), depth)
      invariant Plug(path, f, InsertIn(stem, depth, mug, k, v, f, asWritten)) == goal
      decreases 5 - depth
    {
      var chunk;
      chunk, bits := NextChunk(bits, mug(k), depth);
      var o := InsertRound(stem, depth, chunk, mug, k, v, f, asWritten);
      if o.Done? {
        var root := LinkPath(path, f, o.copy);
        return HamtMap(root);
      }
      DescendKeeps(path, o.step, stem, depth, o.next, mug, k, v, f, asWritten);
      path := path + [o.step];
      stem := o.next;
      depth := depth + 1;
    }
  }

  /** `mug & 0x1f` and `mug >>= 5`: the chunk of this level, and the bits
      left for the levels below. */
  method NextChunk(bits: bv32, mug: bv32, depth: nat) returns (chunk: Chunk, rest: bv32)
    requires depth < 6 && bits == MugBits(mug, depth)
    ensures chunk == ChunkAt(mug, depth) && rest == MugBits(mug, depth + 1)
  {
    MugBitsNext(mug, depth);
    chunk := LowChunk(bits);
    rest := DropChunk(bits);
  }

  lemma DescendKeeps<V>(path: seq<PathStep<V>>, p: PathStep<V>, s: Stem<V>, d: nat, t: Stem<V>, mug: Mug, k: Noun, v: V, f: nat, asWritten: bool)
    requires PathFits(path) && Shaped(s, d) && d < 5 && Shaped(t, d + 1) && p.idx < |p.stem.buffer|
    requires InsertIn(s, d, mug, k, v, f, asWritten) == Link(p, f, InsertIn(t, d + 1, mug, k, v, f, asWritten))
    ensures PathFits(path + [p])
    ensures Plug(path + [p], f, InsertIn(t, d + 1, mug, k, v, f, asWritten)) == Plug(path, f, InsertIn(s, d, mug, k, v, f, asWritten))
  {
    PlugSnoc(path, p, f, InsertIn(t, d + 1, mug, k, v, f, asWritten));
  }

  /** One round of `Hamt::insert` at the stem `stem`, depth `depth`. */
  method InsertRound<V>(stem: Stem<V>, depth: nat, chunk: Chunk, mug: Mug, k: Noun, v: V, f: nat, asWritten: bool)
    returns (o: Round<V>)
    requires Shaped(stem, depth) && chunk == ChunkAt(mug(k), depth)
    ensures o.Done? ==> o.copy == InsertIn(stem, depth, mug, k, v, f, asWritten)
    ensures o.Descend? ==>
      depth < 5 && Shaped(o.next, depth + 1) && o.step.idx < |o.step.stem.buffer|
      && InsertIn(stem, depth, mug, k, v, f, asWritten) == Link(o.step, f, InsertIn(o.next, depth + 1, mug, k, v, f, asWritten))
  {
    var ent := EntryAt(stem, depth, chunk);
    if ent.None? {
      EmptyRound(stem, depth, chunk, mug, k, v, f, asWritten);
      var split := HypotheticalIndex(stem.bitmap, chunk);
      var leaf := ELeaf(Leaf(f, 1, [(k, v)]));
      return Done(Stem(SetSlot(stem.bitmap, chunk), ClearSlot(stem.typemap, chunk), f,
                       stem.buffer[..split] + [leaf] + stem.buffer[split..]));
    }
    var e, idx := ent.value.0, ent.value.1;
    if e.EStem? {
      StemStep(stem, depth, chunk, e.stem, mug, k, v, f, asWritten);
      return Descend(PathStep(stem, stem.typemap, idx), e.stem);
    }
    var l := e.leaf;
    LeafRound(stem, depth, chunk, l, mug, k, v, f, asWritten);
    var ps := LivePairs(l);
    var found := ScanLeaf(ps, k);
    if found.Some? {
      var ldx := found.value;
      return Done(Stem(stem.bitmap, stem.typemap, f,
                       stem.buffer[idx := ELeaf(Leaf(f, l.len, ps[ldx := (ps[ldx].0, v)]))]));
    } else if depth >= 5 {
      return Done(Stem(stem.bitmap, stem.typemap, f,
                       stem.buffer[idx := ELeaf(Leaf(f, if asWritten then l.len else l.len + 1, ps + [(k, v)]))]));
    }
    // below the depth limit the leaf holds one pair: push it into a fake
    // stem keyed by the next chunk of its own mug
    var fakeChunk := ChunkAt(mug(l.buffer[0].0), depth + 1);
    var fake := Stem(ChunkToBit(fakeChunk), 0, f, [ELeaf(l)]);
    assert fake == FakeStem(l, mug, depth, f);
    PushStep(stem, depth, chunk, l, mug, k, v, f, asWritten);
    return Descend(PathStep(stem, SetSlot(stem.typemap, chunk), idx), fake);
  }

  /** A round ending at an empty slot: the splice is the insert. */
  lemma EmptyRound<V>(s: Stem<V>, d: nat, c: Chunk, mug: Mug, k: Noun, v: V, f: nat, asWritten: bool)
    requires Shaped(s, d) && !Bit(s.bitmap, c) && c == ChunkAt(mug(k), d)
    ensures HypotheticalIndex(s.bitmap, c) <= |s.buffer|
    ensures
      var split := HypotheticalIndex(s.bitmap, c);
      InsertIn(s, d, mug, k, v, f, asWritten)
        == Stem(SetSlot(s.bitmap, c), ClearSlot(s.typemap, c), f,
                s.buffer[..split] + [ELeaf(Leaf(f, 1, [(k, v)]))] + s.buffer[split..])
  {
    IndexAtMostSize(s.bitmap, c);
  }

  /** A round reaching a leaf: present key, depth-5 chain, or push-down. */
  lemma LeafRound<V>(s: Stem<V>, d: nat, c: Chunk, l: Leaf<V>, mug: Mug, k: Noun, v: V, f: nat, asWritten: bool)
    requires Shaped(s, d) && Bit(s.bitmap, c) && c == ChunkAt(mug(k), d)
    requires HypotheticalIndex(s.bitmap, c) < |s.buffer| && s.buffer[HypotheticalIndex(s.bitmap, c)] == ELeaf(l)
    ensures 1 <= l.len <= |l.buffer| && (d < 5 ==> l.len == 1)
    ensures InsertIn(s, d, mug, k, v, f, asWritten) == InsertAtLeaf(s, d, c, l, mug, k, v, f, asWritten)
    ensures
      var idx, ps := HypotheticalIndex(s.bitmap, c), LivePairs(l);
      match FindKey(ps, k)
      case Some(ldx) =>
        InsertIn(s, d, mug, k, v, f, asWritten)
          == Stem(s.bitmap, s.typemap, f, s.buffer[idx := ELeaf(Leaf(f, l.len, ps[ldx := (ps[ldx].0, v)]))])
      case None =>
        d >= 5 ==>
          InsertIn(s, d, mug, k, v, f, asWritten)
            == Stem(s.bitmap, s.typemap, f, s.buffer[idx := ELeaf(Leaf(f, if asWritten then l.len else l.len + 1, ps + [(k, v)]))])
  {
    SlotShaped(s, d, c);
    AtSlotLeaf(s, d, c, l, mug, k, v, f, asWritten);
  }

  /** Descending into a stem entry: the insert is the copy linked to the
      insert below. */
  lemma StemStep<V>(s: Stem<V>, d: nat, c: Chunk, t: Stem<V>, mug: Mug, k: Noun, v: V, f: nat, asWritten: bool)
    requires Shaped(s, d) && Bit(s.bitmap, c) && c == ChunkAt(mug(k), d)
    requires HypotheticalIndex(s.bitmap, c) < |s.buffer| && s.buffer[HypotheticalIndex(s.bitmap, c)] == EStem(t)
    ensures d < 5 && Shaped(t, d + 1)
    ensures InsertIn(s, d, mug, k, v, f, asWritten)
      == Link(PathStep(s, s.typemap, HypotheticalIndex(s.bitmap, c)), f, InsertIn(t, d + 1, mug, k, v, f, asWritten))
  {
    SlotShaped(s, d, c);
  }

  /** Pushing a one-pair leaf down: the insert is the copy, typemap bit set,
      linked to the insert into the fake stem. */
  lemma PushStep<V>(s: Stem<V>, d: nat, c: Chunk, l: Leaf<V>, mug: Mug, k: Noun, v: V, f: nat, asWritten: bool)
    requires Shaped(s, d) && Bit(s.bitmap, c) && c == ChunkAt(mug(k), d) && d < 5
    requires HypotheticalIndex(s.bitmap, c) < |s.buffer| && s.buffer[HypotheticalIndex(s.bitmap, c)] == ELeaf(l)
    requires l.len == 1 && |l.buffer| >= 1 && FindKey(LivePairs(l), k) == None
    ensures InsertAtLeaf(s, d, c, l, mug, k, v, f, asWritten)
      == Link(PathStep(s, SetSlot(s.typemap, c), HypotheticalIndex(s.bitmap, c)), f,
              InsertIn(FakeStem(l, mug, d, f), d + 1, mug, k, v, f, asWritten))
  {
  }
}
