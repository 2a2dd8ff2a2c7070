/** What the persistent HAMT promises its users: a lookup after an insert
    finds the inserted value under its key and what was there before under
    every other key, the empty map holds nothing, and an insert only rebuilds
    the path to the key's slot. */
module HamtFacts {
  import opened Nouns
  import opened Bits32
  import opened Hamt

  // ---------------------------------------------------------------------
  // Leaf scans.

  lemma FindValueSingle<V>(k: Noun, v: V, k2: Noun)
    ensures FindValue([(k, v)], k2) == if k2 == k then Some(v) else None
  {
    if k2 != k {
      assert [(k, v)][1..] == [];
    }
  }

  /** Chaining a pair whose key is absent. */
  lemma {:induction false} FindValueAppend<V>(ps: seq<(Noun, V)>, k: Noun, v: V, k2: Noun)
    requires FindKey(ps, k) == None
    ensures FindValue(ps + [(k, v)], k2) == if k2 == k then Some(v) else FindValue(ps, k2)
  {
    if ps == [] {
      assert ps + [(k, v)] == [(k, v)];
      FindValueSingle(k, v, k2);
    } else {
      assert (ps + [(k, v)])[1..] == ps[1..] + [(k, v)];
      FindValueAppend(ps[1..], k, v, k2);
      if ps[0].0 != k2 {
        FindValueTail(ps, k2);
        FindValueTail(ps + [(k, v)], k2);
      }
    }
  }

  /** Replacing the value of the first pair with key `k`. */
  lemma {:induction false} FindValueUpdate<V>(ps: seq<(Noun, V)>, j: nat, k: Noun, v: V, k2: Noun)
    requires FindKey(ps, k) == Some(j)
    ensures j < |ps| && ps[j].0 == k
    ensures FindValue(ps[j := (ps[j].0, v)], k2) == if k2 == k then Some(v) else FindValue(ps, k2)
    decreases ps
  {
    var qs := ps[j := (ps[j].0, v)];
    assert qs[0].0 == ps[0].0;
    if j == 0 {
      assert qs[1..] == ps[1..];
    } else {
      FindKeyTail(ps, k);
      assert qs[1..] == ps[1..][j - 1 := (ps[j].0, v)];
      FindValueUpdate(ps[1..], j - 1, k, v, k2);
      if ps[0].0 != k2 {
        FindValueTail(ps, k2);
        FindValueTail(qs, k2);
      }
    }
  }

  lemma FindKeyTail<V>(ps: seq<(Noun, V)>, k: Noun)
    requires ps != [] && ps[0].0 != k && FindKey(ps, k).Some?
    ensures FindKey(ps[1..], k) == Some(FindKey(ps, k).value - 1)
  {
  }

  lemma FindValueTail<V>(ps: seq<(Noun, V)>, k: Noun)
    requires ps != [] && ps[0].0 != k
    ensures FindValue(ps, k) == FindValue(ps[1..], k)
  {
    match FindKey(ps[1..], k)
    case None =>
    case Some(i) => assert ps[1..][i] == ps[i + 1];
  }

  // ---------------------------------------------------------------------
  // Insert changes only the key's slot.

  /** Every slot other than the key's keeps its entry (the siblings on the
      path are shared, not copied). */
  lemma InsertOtherSlot<V>(s: Stem<V>, d: nat, mug: Mug, k: Noun, v: V, f: nat, asWritten: bool, c2: Chunk)
    requires Shaped(s, d) && c2 != ChunkAt(mug(k), d)
    ensures Child(InsertIn(s, d, mug, k, v, f, asWritten), d, c2) == Child(s, d, c2)
  {
    var c := ChunkAt(mug(k), d);
    var r := InsertIn(s, d, mug, k, v, f, asWritten);
    if !Bit(s.bitmap, c) {
      assert r == InsertEmpty(s, d, c, k, v, f);
      EmptyOtherSlot(s, d, c, k, v, f, c2);
    } else {
      assert r == InsertAtSlot(s, d, c, mug, k, v, f, asWritten);
      if Bit(s.bitmap, c2) {
        SlotShaped(s, d, c2);
        if c2 < c {
          IndexOrdered(s.bitmap, c2, c);
        } else {
          IndexOrdered(s.bitmap, c, c2);
        }
      }
    }
  }

  lemma EmptyOtherSlot<V>(s: Stem<V>, d: nat, c: Chunk, k: Noun, v: V, f: nat, c2: Chunk)
    requires Shaped(s, d) && !Bit(s.bitmap, c) && c2 != c
    ensures Child(InsertEmpty(s, d, c, k, v, f), d, c2) == Child(s, d, c2)
  {
    var r := InsertEmpty(s, d, c, k, v, f);
    SetSlotBits(s.bitmap, c);
    assert Bit(r.bitmap, c2) == Bit(s.bitmap, c2);
    if Bit(s.bitmap, c2) {
      SlotShaped(s, d, c2);
      SpliceMoves(s.bitmap, r.bitmap, c, c2, s.buffer, ELeaf(Leaf(f, 1, [(k, v)])));
    }
  }

  /** An occupied slot's entry is found at its new index after a splice. */
  lemma SpliceMoves<T>(bm: bv32, bm': bv32, c: Chunk, c2: Chunk, xs: seq<T>, e: T)
    requires !Bit(bm, c) && Bit(bm, c2) && c2 != c
    requires forall i: Chunk :: Bit(bm', i) == (Bit(bm, i) || i == c)
    requires |xs| == PopCount(bm) && HypotheticalIndex(bm, c2) < |xs|
    ensures HypotheticalIndex(bm, c) <= |xs|
    ensures
      var j := HypotheticalIndex(bm, c);
      var ys := xs[..j] + [e] + xs[j..];
      HypotheticalIndex(bm', c2) < |ys| && ys[HypotheticalIndex(bm', c2)] == xs[HypotheticalIndex(bm, c2)]
  {
    IndexAtMostSize(bm, c);
    SpliceIndex(bm, bm', c, c2);
    SpliceElem(xs, HypotheticalIndex(bm, c), e, HypotheticalIndex(bm, c2));
  }

  /** The empty slot now holds the new one-pair leaf. */
  lemma EmptySlot<V>(s: Stem<V>, d: nat, c: Chunk, k: Noun, v: V, f: nat)
    requires Shaped(s, d) && !Bit(s.bitmap, c)
    ensures Child(InsertEmpty(s, d, c, k, v, f), d, c) == Some(ELeaf(Leaf(f, 1, [(k, v)])))
  {
    var r := InsertEmpty(s, d, c, k, v, f);
    SetSlotBits(s.bitmap, c);
    IndexAtMostSize(s.bitmap, c);
    SpliceIndex(s.bitmap, r.bitmap, c, c);
    SpliceElem(s.buffer, HypotheticalIndex(s.bitmap, c), ELeaf(Leaf(f, 1, [(k, v)])), 0);
  }

  // ---------------------------------------------------------------------
  // Lookup after insert.

  /** One step of a lookup: the key's chunk selects the child. */
  lemma LookupStep<V>(s: Stem<V>, d: nat, mug: Mug, k: Noun)
    requires Shaped(s, d)
    ensures Child(s, d, ChunkAt(mug(k), d)).None? ==> LookupIn(s, d, mug, k) == None
    ensures Child(s, d, ChunkAt(mug(k), d)).Some? ==>
      var e := Child(s, d, ChunkAt(mug(k), d)).value;
      LookupIn(s, d, mug, k) == if e.EStem? then LookupIn(e.stem, d + 1, mug, k) else FindValue(LivePairs(e.leaf), k)
  {
  }

  /** Two stems with the same child at the key's chunk agree on the key. */
  lemma LookupSameChild<V>(s: Stem<V>, r: Stem<V>, d: nat, mug: Mug, k: Noun)
    requires Shaped(s, d) && Shaped(r, d)
    requires Child(r, d, ChunkAt(mug(k), d)) == Child(s, d, ChunkAt(mug(k), d))
    ensures LookupIn(r, d, mug, k) == LookupIn(s, d, mug, k)
  {
    LookupStep(s, d, mug, k);
    LookupStep(r, d, mug, k);
  }

  /** The entry an insert through an occupied slot leaves there. */
  lemma AtSlotStem<V>(s: Stem<V>, d: nat, c: Chunk, t: Stem<V>, mug: Mug, k: Noun, v: V, f: nat, asWritten: bool)
    requires Shaped(s, d) && Bit(s.bitmap, c) && c == ChunkAt(mug(k), d)
    requires HypotheticalIndex(s.bitmap, c) < |s.buffer| && s.buffer[HypotheticalIndex(s.bitmap, c)] == EStem(t)
    requires d < 5 && Shaped(t, d + 1)
    ensures Child(InsertAtSlot(s, d, c, mug, k, v, f, asWritten), d, c) == Some(EStem(InsertIn(t, d + 1, mug, k, v, f, asWritten)))
  {
  }

  lemma AtSlotLeaf<V>(s: Stem<V>, d: nat, c: Chunk, l: Leaf<V>, mug: Mug, k: Noun, v: V, f: nat, asWritten: bool)
    requires Shaped(s, d) && Bit(s.bitmap, c) && c == ChunkAt(mug(k), d)
    requires HypotheticalIndex(s.bitmap, c) < |s.buffer| && s.buffer[HypotheticalIndex(s.bitmap, c)] == ELeaf(l)
    ensures InsertAtSlot(s, d, c, mug, k, v, f, asWritten) == InsertAtLeaf(s, d, c, l, mug, k, v, f, asWritten)
  {
  }

  lemma AtLeafFound<V>(s: Stem<V>, d: nat, c: Chunk, l: Leaf<V>, mug: Mug, k: Noun, v: V, f: nat, asWritten: bool, ldx: nat)
    requires Shaped(s, d) && Bit(s.bitmap, c) && c == ChunkAt(mug(k), d)
    requires HypotheticalIndex(s.bitmap, c) < |s.buffer| && s.buffer[HypotheticalIndex(s.bitmap, c)] == ELeaf(l)
    requires l.len <= |l.buffer| && FindKey(LivePairs(l), k) == Some(ldx)
    ensures ldx < |LivePairs(l)|
    ensures Child(InsertAtLeaf(s, d, c, l, mug, k, v, f, asWritten), d, c)
      == Some(ELeaf(Leaf(f, l.len, LivePairs(l)[ldx := (LivePairs(l)[ldx].0, v)])))
  {
  }

  lemma AtLeafChain<V>(s: Stem<V>, d: nat, c: Chunk, l: Leaf<V>, mug: Mug, k: Noun, v: V, f: nat, asWritten: bool)
    requires Shaped(s, d) && Bit(s.bitmap, c) && c == ChunkAt(mug(k), d) && d >= 5
    requires HypotheticalIndex(s.bitmap, c) < |s.buffer| && s.buffer[HypotheticalIndex(s.bitmap, c)] == ELeaf(l)
    requires l.len <= |l.buffer| && FindKey(LivePairs(l), k) == None
    ensures Child(InsertAtLeaf(s, d, c, l, mug, k, v, f, asWritten), d, c)
      == Some(ELeaf(Leaf(f, if asWritten then l.len else l.len + 1, LivePairs(l) + [(k, v)])))
  {
  }

  lemma AtLeafPush<V>(s: Stem<V>, d: nat, c: Chunk, l: Leaf<V>, mug: Mug, k: Noun, v: V, f: nat, asWritten: bool)
    requires Shaped(s, d) && Bit(s.bitmap, c) && c == ChunkAt(mug(k), d) && d < 5
    requires HypotheticalIndex(s.bitmap, c) < |s.buffer| && s.buffer[HypotheticalIndex(s.bitmap, c)] == ELeaf(l)
    requires l.len == 1 && |l.buffer| >= 1 && FindKey(LivePairs(l), k) == None
    ensures Child(InsertAtLeaf(s, d, c, l, mug, k, v, f, asWritten), d, c)
      == Some(EStem(InsertIn(FakeStem(l, mug, d, f), d + 1, mug, k, v, f, asWritten)))
  {
  }

  /** The lookup law of the map: after inserting `v` under `k`, `k` finds
      `v` and every other key finds what it found before. */
  lemma {:induction false} LookupInsertIn<V>(s: Stem<V>, d: nat, mug: Mug, k: Noun, v: V, f: nat, k2: Noun)
    requires Shaped(s, d)
    ensures LookupIn(InsertIn(s, d, mug, k, v, f, false), d, mug, k2)
      == if k2 == k then Some(v) else LookupIn(s, d, mug, k2)
    decreases 5 - d, 3
  {
    var c := ChunkAt(mug(k), d);
    if ChunkAt(mug(k2), d) != c {
      InsertOtherSlot(s, d, mug, k, v, f, false, ChunkAt(mug(k2), d));
      LookupSameChild(s, InsertIn(s, d, mug, k, v, f, false), d, mug, k2);
    } else if !Bit(s.bitmap, c) {
      LookupInsertEmpty(s, d, c, mug, k, v, f, k2);
    } else {
      LookupInsertSlot(s, d, c, mug, k, v, f, k2);
    }
  }

  lemma LookupInsertEmpty<V>(s: Stem<V>, d: nat, c: Chunk, mug: Mug, k: Noun, v: V, f: nat, k2: Noun)
    requires Shaped(s, d) && !Bit(s.bitmap, c) && c == ChunkAt(mug(k), d) && c == ChunkAt(mug(k2), d)
    ensures LookupIn(InsertEmpty(s, d, c, k, v, f), d, mug, k2)
      == if k2 == k then Some(v) else LookupIn(s, d, mug, k2)
  {
    var r := InsertEmpty(s, d, c, k, v, f);
    EmptySlot(s, d, c, k, v, f);
    LookupStep(r, d, mug, k2);
    LookupStep(s, d, mug, k2);
    FindValueSingle(k, v, k2);
  }

  lemma {:induction false} LookupInsertSlot<V>(s: Stem<V>, d: nat, c: Chunk, mug: Mug, k: Noun, v: V, f: nat, k2: Noun)
    requires Shaped(s, d) && Bit(s.bitmap, c) && c == ChunkAt(mug(k), d) && c == ChunkAt(mug(k2), d)
    ensures LookupIn(InsertAtSlot(s, d, c, mug, k, v, f, false), d, mug, k2)
      == if k2 == k then Some(v) else LookupIn(s, d, mug, k2)
    decreases 5 - d, 2
  {
    SlotShaped(s, d, c);
    var idx := HypotheticalIndex(s.bitmap, c);
    LookupStep(s, d, mug, k2);
    LookupStep(InsertAtSlot(s, d, c, mug, k, v, f, false), d, mug, k2);
    match s.buffer[idx]
    case EStem(t) =>
      AtSlotStem(s, d, c, t, mug, k, v, f, false);
      LookupInsertIn(t, d + 1, mug, k, v, f, k2);
    case ELeaf(l) =>
      AtSlotLeaf(s, d, c, l, mug, k, v, f, false);
      LookupInsertLeaf(s, d, c, l, mug, k, v, f, k2);
  }

  lemma {:induction false} LookupInsertLeaf<V>(s: Stem<V>, d: nat, c: Chunk, l: Leaf<V>, mug: Mug, k: Noun, v: V, f: nat, k2: Noun)
    requires Shaped(s, d) && Bit(s.bitmap, c) && c == ChunkAt(mug(k), d) && c == ChunkAt(mug(k2), d)
    requires HypotheticalIndex(s.bitmap, c) < |s.buffer| && s.buffer[HypotheticalIndex(s.bitmap, c)] == ELeaf(l)
    ensures 1 <= l.len <= |l.buffer|
    ensures LookupIn(InsertAtLeaf(s, d, c, l, mug, k, v, f, false), d, mug, k2)
      == if k2 == k then Some(v) else FindValue(LivePairs(l), k2)
    decreases 5 - d, 1
  {
    SlotShaped(s, d, c);
    match FindKey(LivePairs(l), k)
    case Some(ldx) =>
      LookupInsertFound(s, d, c, l, mug, k, v, f, k2, ldx);
    case None =>
      if d >= 5 {
        LookupInsertChain(s, d, c, l, mug, k, v, f, k2);
      } else {
        LookupInsertPush(s, d, c, l, mug, k, v, f, k2);
      }
  }

  lemma LookupInsertFound<V>(s: Stem<V>, d: nat, c: Chunk, l: Leaf<V>, mug: Mug, k: Noun, v: V, f: nat, k2: Noun, ldx: nat)
    requires Shaped(s, d) && Bit(s.bitmap, c) && c == ChunkAt(mug(k), d) && c == ChunkAt(mug(k2), d)
    requires HypotheticalIndex(s.bitmap, c) < |s.buffer| && s.buffer[HypotheticalIndex(s.bitmap, c)] == ELeaf(l)
    requires l.len <= |l.buffer| && FindKey(LivePairs(l), k) == Some(ldx)
    ensures LookupIn(InsertAtLeaf(s, d, c, l, mug, k, v, f, false), d, mug, k2)
      == if k2 == k then Some(v) else FindValue(LivePairs(l), k2)
  {
    LookupStep(InsertAtLeaf(s, d, c, l, mug, k, v, f, false), d, mug, k2);
    AtLeafFound(s, d, c, l, mug, k, v, f, false, ldx);
    FindValueUpdate(LivePairs(l), ldx, k, v, k2);
    var q := Leaf(f, l.len, LivePairs(l)[ldx := (LivePairs(l)[ldx].0, v)]);
    assert LivePairs(q) == q.buffer;
  }

  lemma LookupInsertChain<V>(s: Stem<V>, d: nat, c: Chunk, l: Leaf<V>, mug: Mug, k: Noun, v: V, f: nat, k2: Noun)
    requires Shaped(s, d) && Bit(s.bitmap, c) && c == ChunkAt(mug(k), d) && c == ChunkAt(mug(k2), d) && d >= 5
    requires HypotheticalIndex(s.bitmap, c) < |s.buffer| && s.buffer[HypotheticalIndex(s.bitmap, c)] == ELeaf(l)
    requires l.len <= |l.buffer| && FindKey(LivePairs(l), k) == None
    ensures LookupIn(InsertAtLeaf(s, d, c, l, mug, k, v, f, false), d, mug, k2)
      == if k2 == k then Some(v) else FindValue(LivePairs(l), k2)
  {
    LookupStep(InsertAtLeaf(s, d, c, l, mug, k, v, f, false), d, mug, k2);
    AtLeafChain(s, d, c, l, mug, k, v, f, false);
    FindValueAppend(LivePairs(l), k, v, k2);
    var q := Leaf(f, l.len + 1, LivePairs(l) + [(k, v)]);
    assert LivePairs(q) == q.buffer;
  }

  lemma {:induction false} LookupInsertPush<V>(s: Stem<V>, d: nat, c: Chunk, l: Leaf<V>, mug: Mug, k: Noun, v: V, f: nat, k2: Noun)
    requires Shaped(s, d) && Bit(s.bitmap, c) && c == ChunkAt(mug(k), d) && c == ChunkAt(mug(k2), d) && d < 5
    requires HypotheticalIndex(s.bitmap, c) < |s.buffer| && s.buffer[HypotheticalIndex(s.bitmap, c)] == ELeaf(l)
    requires l.len == 1 && |l.buffer| >= 1 && FindKey(LivePairs(l), k) == None
    ensures LookupIn(InsertAtLeaf(s, d, c, l, mug, k, v, f, false), d, mug, k2)
      == if k2 == k then Some(v) else FindValue(LivePairs(l), k2)
    decreases 5 - d, 0
  {
    var fake := FakeStem(l, mug, d, f);
    LookupStep(InsertAtLeaf(s, d, c, l, mug, k, v, f, false), d, mug, k2);
    AtLeafPush(s, d, c, l, mug, k, v, f, false);
    LookupInsertIn(fake, d + 1, mug, k, v, f, k2);
    FakeLookup(l, mug, d, f, k2);
  }

  /** The stem a one-pair leaf is pushed down into finds what the leaf
      found. */
  lemma FakeLookup<V>(l: Leaf<V>, mug: Mug, d: nat, f: nat, k2: Noun)
    requires d < 5 && l.len == 1 && |l.buffer| >= 1
    ensures LookupIn(FakeStem(l, mug, d, f), d + 1, mug, k2) == FindValue(LivePairs(l), k2)
  {
    var fake := FakeStem(l, mug, d, f);
    var k0 := l.buffer[0].0;
    var fc := ChunkAt(mug(k0), d + 1);
    var c2 := ChunkAt(mug(k2), d + 1);
    ToBitBit(fc, c2);
    assert LivePairs(l) == [l.buffer[0]];
    FindValueSingle(k0, l.buffer[0].1, k2);
    if c2 == fc {
      CountSingle(fc, fc);
    }
  }

  /** The map-level lookup law. */
  lemma LookupInsert<V>(m: HamtMap<V>, mug: Mug, k: Noun, v: V, f: nat, k2: Noun)
    requires Shaped(m.root, 0)
    ensures Lookup(Insert(m, mug, k, v, f), mug, k2) == if k2 == k then Some(v) else Lookup(m, mug, k2)
  {
    LookupInsertIn(m.root, 0, mug, k, v, f, k2);
  }

  // ---------------------------------------------------------------------
  // The shape of an insert.

  /** An insert into an empty slot marks the slot in the bitmap, clears it
      in the typemap and splices a one-pair leaf in at the slot's
      hypothetical index, every other entry keeping its order. */
  lemma InsertEmptyShape<V>(s: Stem<V>, d: nat, mug: Mug, k: Noun, v: V, f: nat, asWritten: bool)
    requires Shaped(s, d) && !Bit(s.bitmap, ChunkAt(mug(k), d))
    ensures
      var c, r := ChunkAt(mug(k), d), InsertIn(s, d, mug, k, v, f, asWritten);
      var j := HypotheticalIndex(s.bitmap, c);
      && (forall i: Chunk :: Bit(r.bitmap, i) == (Bit(s.bitmap, i) || i == c))
      && (forall i: Chunk :: Bit(r.typemap, i) == (Bit(s.typemap, i) && i != c))
      && j <= |s.buffer| && |r.buffer| == |s.buffer| + 1
      && r.buffer[j] == ELeaf(Leaf(f, 1, [(k, v)]))
      && (forall i | 0 <= i < j :: r.buffer[i] == s.buffer[i])
      && (forall i | j <= i < |s.buffer| :: r.buffer[i + 1] == s.buffer[i])
  {
    var c := ChunkAt(mug(k), d);
    var j := HypotheticalIndex(s.bitmap, c);
    var e := ELeaf(Leaf(f, 1, [(k, v)]));
    SetSlotBits(s.bitmap, c);
    ClearSlotBits(s.typemap, c);
    IndexAtMostSize(s.bitmap, c);
    forall i | 0 <= i <= |s.buffer|
      ensures i < j ==> (s.buffer[..j] + [e] + s.buffer[j..])[i] == s.buffer[i]
      ensures j <= i < |s.buffer| ==> (s.buffer[..j] + [e] + s.buffer[j..])[i + 1] == s.buffer[i]
    {
      SpliceElem(s.buffer, j, e, i);
    }
    SpliceElem(s.buffer, j, e, j);
  }

  /** Re-inserting a present key keeps the leaf's length and changes only
      that pair's value. */
  lemma ReinsertShape<V>(s: Stem<V>, d: nat, mug: Mug, k: Noun, v: V, f: nat, asWritten: bool, l: Leaf<V>, ldx: nat)
    requires Shaped(s, d) && Child(s, d, ChunkAt(mug(k), d)) == Some(ELeaf(l))
    requires l.len <= |l.buffer| && FindKey(LivePairs(l), k) == Some(ldx)
    ensures
      var c, r := ChunkAt(mug(k), d), InsertIn(s, d, mug, k, v, f, asWritten);
      && r.bitmap == s.bitmap && r.typemap == s.typemap
      && Child(r, d, c).Some? && Child(r, d, c).value.ELeaf?
      && var q := Child(r, d, c).value.leaf;
      && q.len == l.len && |q.buffer| == l.len && ldx < l.len
      && q.buffer[ldx] == (k, v)
      && (forall i | 0 <= i < l.len && i != ldx :: q.buffer[i] == l.buffer[i])
  {
    var c := ChunkAt(mug(k), d);
    SlotShaped(s, d, c);
    AtSlotLeaf(s, d, c, l, mug, k, v, f, asWritten);
    AtLeafFound(s, d, c, l, mug, k, v, f, asWritten, ldx);
  }

  // ---------------------------------------------------------------------
  // The depth bound.

  /** The stem reached by following the chunks `cs` through stem entries. */
  function StemBelow<V>(s: Stem<V>, ghost d: nat, cs: seq<Chunk>): Option<Stem<V>>
    requires Shaped(s, d)
    decreases |cs|
  {
    if cs == [] then Some(s)
    else
      match Child(s, d, cs[0])
      case None => None
      case Some(e) => if e.EStem? then StemBelow(e.stem, d + 1, cs[1..]) else None
  }

  /** No stem lies more than five levels below the root: a lookup or an
      insert reads at most six chunks of the mug. */
  lemma {:induction false} DepthBound<V>(s: Stem<V>, d: nat, cs: seq<Chunk>)
    requires Shaped(s, d)
    ensures StemBelow(s, d, cs).Some? ==> d + |cs| <= 5 && Shaped(StemBelow(s, d, cs).value, d + |cs|)
    decreases |cs|
  {
    if cs != [] {
      match Child(s, d, cs[0])
      case None =>
      case Some(e) =>
        if e.EStem? {
          DepthBound(e.stem, d + 1, cs[1..]);
        }
    }
  }

  // ---------------------------------------------------------------------
  // The depth-5 chaining of the insert as written.

  /** As written, inserting a key whose mug collides with that of a key
      already present writes the pair after the live ones without growing
      `len`, so the key is not found afterwards. */
  lemma {:induction false} AsWrittenLosesKeyIn<V>(s: Stem<V>, d: nat, mug: Mug, k: Noun, v: V, f: nat, k0: Noun)
    requires Shaped(s, d) && mug(k) == mug(k0) && k != k0
    requires LookupIn(s, d, mug, k0).Some? && LookupIn(s, d, mug, k).None?
    ensures LookupIn(InsertIn(s, d, mug, k, v, f, true), d, mug, k) == None
    decreases 5 - d, 2
  {
    var c := ChunkAt(mug(k), d);
    LookupStep(s, d, mug, k0);
    LookupStep(s, d, mug, k);
    SlotShaped(s, d, c);
    var r := InsertAtSlot(s, d, c, mug, k, v, f, true);
    LookupStep(r, d, mug, k);
    match s.buffer[HypotheticalIndex(s.bitmap, c)]
    case EStem(t) =>
      AtSlotStem(s, d, c, t, mug, k, v, f, true);
      AsWrittenLosesKeyIn(t, d + 1, mug, k, v, f, k0);
    case ELeaf(l) =>
      AtSlotLeaf(s, d, c, l, mug, k, v, f, true);
      AsWrittenLosesKeyLeaf(s, d, c, l, mug, k, v, f, k0);
  }

  lemma {:induction false} AsWrittenLosesKeyLeaf<V>(s: Stem<V>, d: nat, c: Chunk, l: Leaf<V>, mug: Mug, k: Noun, v: V, f: nat, k0: Noun)
    requires Shaped(s, d) && Bit(s.bitmap, c) && c == ChunkAt(mug(k), d) && mug(k) == mug(k0) && k != k0
    requires HypotheticalIndex(s.bitmap, c) < |s.buffer| && s.buffer[HypotheticalIndex(s.bitmap, c)] == ELeaf(l)
    requires 1 <= l.len <= |l.buffer| && (d < 5 ==> l.len == 1)
    requires FindValue(LivePairs(l), k0).Some? && FindValue(LivePairs(l), k).None?
    ensures LookupIn(InsertAtLeaf(s, d, c, l, mug, k, v, f, true), d, mug, k) == None
    decreases 5 - d, 1
  {
    var r := InsertAtLeaf(s, d, c, l, mug, k, v, f, true);
    LookupStep(r, d, mug, k);
    if d >= 5 {
      AtLeafChain(s, d, c, l, mug, k, v, f, true);
      var q := Leaf(f, l.len, LivePairs(l) + [(k, v)]);
      assert LivePairs(q) == LivePairs(l);
    } else {
      AsWrittenLosesKeyPush(s, d, c, l, mug, k, v, f, k0);
    }
  }

  lemma {:induction false} AsWrittenLosesKeyPush<V>(s: Stem<V>, d: nat, c: Chunk, l: Leaf<V>, mug: Mug, k: Noun, v: V, f: nat, k0: Noun)
    requires Shaped(s, d) && Bit(s.bitmap, c) && c == ChunkAt(mug(k), d) && mug(k) == mug(k0) && k != k0 && d < 5
    requires HypotheticalIndex(s.bitmap, c) < |s.buffer| && s.buffer[HypotheticalIndex(s.bitmap, c)] == ELeaf(l)
    requires l.len == 1 && |l.buffer| >= 1
    requires FindValue(LivePairs(l), k0).Some? && FindValue(LivePairs(l), k).None?
    ensures LookupIn(InsertAtLeaf(s, d, c, l, mug, k, v, f, true), d, mug, k) == None
    decreases 5 - d, 0
  {
    var fake := FakeStem(l, mug, d, f);
    LookupStep(InsertAtLeaf(s, d, c, l, mug, k, v, f, true), d, mug, k);
    AtLeafPush(s, d, c, l, mug, k, v, f, true);
    FakeLookup(l, mug, d, f, k0);
    FakeLookup(l, mug, d, f, k);
    AsWrittenLosesKeyIn(fake, d + 1, mug, k, v, f, k0);
  }

  /** A concrete instance: under a constant mug, insert `0` and then, as
      written, `1`; the second key is lost. */
  lemma AsWrittenLosesKey()
    ensures
      var mug: Mug := (n: Noun) => 0;
      var m := Insert(Empty<nat>(), mug, Atom(0), 10, 1);
      Lookup(InsertAsWritten(m, mug, Atom(1), 11, 1), mug, Atom(1)) == None
  {
    var mug: Mug := (n: Noun) => 0;
    var m := Insert(Empty<nat>(), mug, Atom(0), 10, 1);
    LookupInsert(Empty<nat>(), mug, Atom(0), 10, 1, Atom(0));
    LookupInsert(Empty<nat>(), mug, Atom(0), 10, 1, Atom(1));
    LookupEmpty<nat>(mug, Atom(1));
    AsWrittenLosesKeyIn(m.root, 0, mug, Atom(1), 11, 1, Atom(0));
  }

  /** The corrected insert finds the chained key. */
  lemma ChainedKeyFound()
    ensures
      var mug: Mug := (n: Noun) => 0;
      var m := Insert(Empty<nat>(), mug, Atom(0), 10, 1);
      Lookup(Insert(m, mug, Atom(1), 11, 1), mug, Atom(1)) == Some(11)
  {
    var mug: Mug := (n: Noun) => 0;
    var m := Insert(Empty<nat>(), mug, Atom(0), 10, 1);
    LookupInsert(m, mug, Atom(1), 11, 1, Atom(1));
  }
}
