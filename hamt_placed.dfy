/** Where the HAMT keeps its keys: every pair reachable through slot `c` of
    a stem at depth `d` has a mug whose chunk `d` is `c`. Maps built from
    `Hamt::new` by inserts keep this placement, and on a placed map

    - a lookup finds exactly the stored pairs, as no leaf of such a map
      holds a key twice, and
    - `Hamt::insert` as written (hamt.rs:379-395) builds the same map as the
      corrected insert unless the new key collides, in all six chunks of
      its mug, with a different key already stored. */
module HamtPlaced {
  import opened Nouns
  import opened Bits32
  import opened Hamt
  import opened HamtFacts
  import opened HamtIter

  /** The mug `x` follows the chunks `p` from the root. */
  predicate OnPath(x: bv32, p: seq<Chunk>)
  {
    |p| <= 6 && forall j | 0 <= j < |p| :: ChunkAt(x, j) == p[j]
  }

  /** Two mugs agree in all six chunks (their low 30 bits), so their keys
      meet in the same depth-5 leaf. */
  predicate Collide(a: bv32, b: bv32)
  {
    forall j | 0 <= j < 6 :: ChunkAt(a, j) == ChunkAt(b, j)
  }

  /** The stem at depth `d` reached along the chunks `p` holds below each
      slot only keys whose mugs follow `p` and then that slot. */
  ghost predicate PlacedStem<V>(s: Stem<V>, d: nat, mug: Mug, p: seq<Chunk>)
    requires Shaped(s, d)
    decreases s, 1
  {
    |p| == d && forall c: Chunk :: PlacedChild(s, d, mug, p, c)
  }

  ghost predicate PlacedChild<V>(s: Stem<V>, d: nat, mug: Mug, p: seq<Chunk>, c: Chunk)
    requires Shaped(s, d) && |p| == d
    decreases s, 0
  {
    match Child(s, d, c)
    case None => true
    case Some(e) => PlacedEntry(e, d, mug, p + [c])
  }

  /** An entry stored in a stem at depth `d`, reached along `p`. */
  ghost predicate PlacedEntry<V>(e: Entry<V>, d: nat, mug: Mug, p: seq<Chunk>)
    requires EntryShaped(e, d) && |p| == d + 1
    decreases e, 2
  {
    match e
    case EStem(t) => PlacedStem(t, d + 1, mug, p)
    case ELeaf(l) => forall i | 0 <= i < l.len :: OnPath(mug(l.buffer[i].0), p)
  }

  ghost predicate Placed<V>(m: HamtMap<V>, mug: Mug)
    requires Shaped(m.root, 0)
  {
    PlacedStem(m.root, 0, mug, [])
  }

  /** No two stored pairs share a key. */
  predicate DistinctKeys<V>(ps: seq<(Noun, V)>)
  {
    forall i, j | 0 <= i < j < |ps| :: ps[i].0 != ps[j].0
  }

  /** No stored key other than `k` collides with `k`. */
  ghost predicate NoCollision<V>(m: HamtMap<V>, mug: Mug, k: Noun)
  {
    forall q | q in Pairs(m) :: q.0 == k || !Collide(mug(q.0), mug(k))
  }

  lemma OnPathSnoc(x: bv32, p: seq<Chunk>, c: Chunk)
    requires OnPath(x, p) && |p| < 6 && ChunkAt(x, |p|) == c
    ensures OnPath(x, p + [c])
  {
    forall j | 0 <= j < |p| + 1 ensures ChunkAt(x, j) == (p + [c])[j] {
      if j < |p| {
        assert (p + [c])[j] == p[j];
      }
    }
  }

  lemma OnPathPrefix(x: bv32, p: seq<Chunk>, c: Chunk)
    requires OnPath(x, p + [c])
    ensures OnPath(x, p) && ChunkAt(x, |p|) == c
  {
    assert (p + [c])[|p|] == c;
    assert forall j | 0 <= j < |p| :: (p + [c])[j] == p[j];
  }

  // ---------------------------------------------------------------------
  // Inserts keep the placement.

  /** `Hamt::new` is placed. */
  lemma PlacedEmpty<V>(mug: Mug)
    ensures Placed(Empty<V>(), mug)
  {
    forall c: Chunk ensures PlacedChild(Empty<V>().root, 0, mug, [], c) {
      ZeroBit(c);
    }
  }

  /** Both the corrected insert and the insert as written keep a map placed. */
  lemma PlacedInsert<V>(m: HamtMap<V>, mug: Mug, k: Noun, v: V, f: nat, asWritten: bool)
    requires Shaped(m.root, 0) && Placed(m, mug)
    ensures Placed(HamtMap(InsertIn(m.root, 0, mug, k, v, f, asWritten)), mug)
  {
    PlacedInsertIn(m.root, 0, mug, k, v, f, asWritten, []);
  }

  lemma {:induction false} PlacedInsertIn<V>(s: Stem<V>, d: nat, mug: Mug, k: Noun, v: V, f: nat, asWritten: bool, p: seq<Chunk>)
    requires Shaped(s, d) && PlacedStem(s, d, mug, p) && OnPath(mug(k), p)
    ensures PlacedStem(InsertIn(s, d, mug, k, v, f, asWritten), d, mug, p)
    decreases 5 - d, 4
  {
    var r := InsertIn(s, d, mug, k, v, f, asWritten);
    forall c2: Chunk ensures PlacedChild(r, d, mug, p, c2) {
      PlacedInsertChild(s, d, mug, k, v, f, asWritten, p, c2);
    }
  }

  lemma {:induction false} PlacedInsertChild<V>(s: Stem<V>, d: nat, mug: Mug, k: Noun, v: V, f: nat, asWritten: bool, p: seq<Chunk>, c2: Chunk)
    requires Shaped(s, d) && PlacedStem(s, d, mug, p) && OnPath(mug(k), p)
    ensures PlacedChild(InsertIn(s, d, mug, k, v, f, asWritten), d, mug, p, c2)
    decreases 5 - d, 3
  {
    assert PlacedChild(s, d, mug, p, c2);
    if c2 != ChunkAt(mug(k), d) {
      PlacedOther(s, d, mug, k, v, f, asWritten, p, c2);
    } else if !Bit(s.bitmap, c2) {
      PlacedNew(s, d, mug, k, v, f, asWritten, p);
    } else {
      PlacedThrough(s, d, mug, k, v, f, asWritten, p);
    }
  }

  /** The slots the insert does not touch stay placed. */
  lemma PlacedOther<V>(s: Stem<V>, d: nat, mug: Mug, k: Noun, v: V, f: nat, asWritten: bool, p: seq<Chunk>, c2: Chunk)
    requires Shaped(s, d) && |p| == d && c2 != ChunkAt(mug(k), d) && PlacedChild(s, d, mug, p, c2)
    ensures PlacedChild(InsertIn(s, d, mug, k, v, f, asWritten), d, mug, p, c2)
  {
    InsertOtherSlot(s, d, mug, k, v, f, asWritten, c2);
  }

  /** The one-pair leaf put into an empty slot is placed. */
  lemma PlacedNew<V>(s: Stem<V>, d: nat, mug: Mug, k: Noun, v: V, f: nat, asWritten: bool, p: seq<Chunk>)
    requires Shaped(s, d) && |p| == d && !Bit(s.bitmap, ChunkAt(mug(k), d)) && OnPath(mug(k), p)
    ensures PlacedChild(InsertIn(s, d, mug, k, v, f, asWritten), d, mug, p, ChunkAt(mug(k), d))
  {
    var c := ChunkAt(mug(k), d);
    assert InsertIn(s, d, mug, k, v, f, asWritten) == InsertEmpty(s, d, c, k, v, f);
    EmptySlot(s, d, c, k, v, f);
    OnPathSnoc(mug(k), p, c);
  }

  /** The key's occupied slot stays placed. */
  lemma {:induction false} PlacedThrough<V>(s: Stem<V>, d: nat, mug: Mug, k: Noun, v: V, f: nat, asWritten: bool, p: seq<Chunk>)
    requires Shaped(s, d) && |p| == d && Bit(s.bitmap, ChunkAt(mug(k), d)) && OnPath(mug(k), p)
    requires PlacedChild(s, d, mug, p, ChunkAt(mug(k), d))
    ensures PlacedChild(InsertIn(s, d, mug, k, v, f, asWritten), d, mug, p, ChunkAt(mug(k), d))
    decreases 5 - d, 2
  {
    var c := ChunkAt(mug(k), d);
    assert InsertIn(s, d, mug, k, v, f, asWritten) == InsertAtSlot(s, d, c, mug, k, v, f, asWritten);
    SlotShaped(s, d, c);
    match s.buffer[HypotheticalIndex(s.bitmap, c)]
    case EStem(t) =>
      AtSlotStem(s, d, c, t, mug, k, v, f, asWritten);
      OnPathSnoc(mug(k), p, c);
      StemPlaced(s, d, mug, p, c, t);
      PlacedInsertIn(t, d + 1, mug, k, v, f, asWritten, p + [c]);
    case ELeaf(l) =>
      AtSlotLeaf(s, d, c, l, mug, k, v, f, asWritten);
      PlacedInsertLeaf(s, d, c, l, mug, k, v, f, asWritten, p);
  }

  lemma {:induction false} PlacedInsertLeaf<V>(s: Stem<V>, d: nat, c: Chunk, l: Leaf<V>, mug: Mug, k: Noun, v: V, f: nat, asWritten: bool, p: seq<Chunk>)
    requires Shaped(s, d) && Bit(s.bitmap, c) && c == ChunkAt(mug(k), d)
    requires HypotheticalIndex(s.bitmap, c) < |s.buffer| && s.buffer[HypotheticalIndex(s.bitmap, c)] == ELeaf(l)
    requires |p| == d && PlacedChild(s, d, mug, p, c) && OnPath(mug(k), p)
    ensures PlacedChild(InsertAtLeaf(s, d, c, l, mug, k, v, f, asWritten), d, mug, p, c)
    decreases 5 - d, 1
  {
    SlotShaped(s, d, c);
    var r := InsertAtLeaf(s, d, c, l, mug, k, v, f, asWritten);
    var ps := LivePairs(l);
    LeafPlaced(s, d, mug, p, c, l);
    OnPathSnoc(mug(k), p, c);
    match FindKey(ps, k)
    case Some(ldx) =>
      AtLeafFound(s, d, c, l, mug, k, v, f, asWritten, ldx);
      FoundLeafPlaced(r, d, c, l, mug, v, f, ldx, p);
    case None =>
      if d >= 5 {
        AtLeafChain(s, d, c, l, mug, k, v, f, asWritten);
        ChainLeafPlaced(r, d, c, l, mug, k, v, f, if asWritten then l.len else l.len + 1, p);
      } else {
        PlacedInsertPush(s, d, c, l, mug, k, v, f, asWritten, p);
      }
  }

  /** Rewriting a value keeps the leaf's keys where they were. */
  lemma FoundLeafPlaced<V>(r: Stem<V>, d: nat, c: Chunk, l: Leaf<V>, mug: Mug, v: V, f: nat, ldx: nat, p: seq<Chunk>)
    requires Shaped(r, d) && |p| == d && l.len <= |l.buffer| && ldx < l.len
    requires Child(r, d, c) == Some(ELeaf(Leaf(f, l.len, LivePairs(l)[ldx := (LivePairs(l)[ldx].0, v)])))
    requires forall i | 0 <= i < l.len :: OnPath(mug(l.buffer[i].0), p + [c])
    ensures PlacedChild(r, d, mug, p, c)
  {
    var q := Leaf(f, l.len, LivePairs(l)[ldx := (LivePairs(l)[ldx].0, v)]);
    assert forall i | 0 <= i < q.len :: q.buffer[i].0 == l.buffer[i].0;
    LeafChildPlaced(r, d, mug, p, c, q);
  }

  /** Chaining a key on its own path keeps the leaf placed, whatever
      length the new leaf keeps. */
  lemma ChainLeafPlaced<V>(r: Stem<V>, d: nat, c: Chunk, l: Leaf<V>, mug: Mug, k: Noun, v: V, f: nat, len: nat, p: seq<Chunk>)
    requires Shaped(r, d) && |p| == d && l.len <= |l.buffer| && len <= l.len + 1
    requires Child(r, d, c) == Some(ELeaf(Leaf(f, len, LivePairs(l) + [(k, v)])))
    requires forall i | 0 <= i < l.len :: OnPath(mug(l.buffer[i].0), p + [c])
    requires OnPath(mug(k), p + [c])
    ensures PlacedChild(r, d, mug, p, c)
  {
    var q := Leaf(f, len, LivePairs(l) + [(k, v)]);
    assert forall i | 0 <= i < q.len :: q.buffer[i].0 == if i < l.len then l.buffer[i].0 else k;
    LeafChildPlaced(r, d, mug, p, c, q);
  }

  lemma {:induction false} PlacedInsertPush<V>(s: Stem<V>, d: nat, c: Chunk, l: Leaf<V>, mug: Mug, k: Noun, v: V, f: nat, asWritten: bool, p: seq<Chunk>)
    requires Shaped(s, d) && Bit(s.bitmap, c) && c == ChunkAt(mug(k), d) && d < 5
    requires HypotheticalIndex(s.bitmap, c) < |s.buffer| && s.buffer[HypotheticalIndex(s.bitmap, c)] == ELeaf(l)
    requires l.len == 1 && |l.buffer| >= 1 && FindKey(LivePairs(l), k) == None
    requires |p| == d && OnPath(mug(k), p + [c]) && OnPath(mug(l.buffer[0].0), p + [c])
    ensures PlacedChild(InsertAtLeaf(s, d, c, l, mug, k, v, f, asWritten), d, mug, p, c)
    decreases 5 - d, 0
  {
    var fake := FakeStem(l, mug, d, f);
    AtLeafPush(s, d, c, l, mug, k, v, f, asWritten);
    PlacedFake(l, mug, d, f, p + [c]);
    PlacedInsertIn(fake, d + 1, mug, k, v, f, asWritten, p + [c]);
  }

  /** The pairs of a placed leaf follow the path to it. */
  lemma LeafPlaced<V>(s: Stem<V>, d: nat, mug: Mug, p: seq<Chunk>, c: Chunk, l: Leaf<V>)
    requires Shaped(s, d) && |p| == d && PlacedChild(s, d, mug, p, c) && Child(s, d, c) == Some(ELeaf(l))
    ensures l.len <= |l.buffer|
    ensures forall i | 0 <= i < l.len :: OnPath(mug(l.buffer[i].0), p + [c])
  {
  }

  /** A stem below a placed slot is placed along the slot. */
  lemma StemPlaced<V>(s: Stem<V>, d: nat, mug: Mug, p: seq<Chunk>, c: Chunk, t: Stem<V>)
    requires Shaped(s, d) && |p| == d && PlacedChild(s, d, mug, p, c) && Child(s, d, c) == Some(EStem(t))
    ensures d < 5 && Shaped(t, d + 1) && PlacedStem(t, d + 1, mug, p + [c])
  {
  }

  /** A slot holding a leaf whose pairs follow the path is placed. */
  lemma LeafChildPlaced<V>(r: Stem<V>, d: nat, mug: Mug, p: seq<Chunk>, c: Chunk, q: Leaf<V>)
    requires Shaped(r, d) && |p| == d && Child(r, d, c) == Some(ELeaf(q))
    requires forall i | 0 <= i < q.len && i < |q.buffer| :: OnPath(mug(q.buffer[i].0), p + [c])
    ensures PlacedChild(r, d, mug, p, c)
  {
  }

  /** The stem a one-pair leaf is pushed down into is placed. */
  lemma PlacedFake<V>(l: Leaf<V>, mug: Mug, d: nat, f: nat, p: seq<Chunk>)
    requires d < 5 && l.len == 1 && |l.buffer| >= 1 && |p| == d + 1
    requires OnPath(mug(l.buffer[0].0), p)
    ensures PlacedStem(FakeStem(l, mug, d, f), d + 1, mug, p)
  {
    var fake := FakeStem(l, mug, d, f);
    var d1 := d + 1;
    var fc := ChunkAt(mug(l.buffer[0].0), d1);
    OnPathSnoc(mug(l.buffer[0].0), p, fc);
    forall c2: Chunk ensures PlacedChild(fake, d1, mug, p, c2) {
      ToBitBit(fc, c2);
    }
    assert PlacedStem(fake, d1, mug, p);
  }

  // ---------------------------------------------------------------------
  // The insert as written agrees with the corrected one.

  /** As written and corrected, an insert builds the same map, unless the
      tree already stores a pair whose key differs from `k` but collides
      with it. The colliding pair is returned. */
  lemma {:induction false} AgreeIn<V>(s: Stem<V>, d: nat, mug: Mug, k: Noun, v: V, f: nat, p: seq<Chunk>) returns (q: (Noun, V))
    requires Shaped(s, d) && PlacedStem(s, d, mug, p) && OnPath(mug(k), p)
    ensures InsertIn(s, d, mug, k, v, f, true) == InsertIn(s, d, mug, k, v, f, false)
      || (q in EntriesPairs(s.buffer) && q.0 != k && Collide(mug(q.0), mug(k)))
    decreases 5 - d, 2
  {
    q := (k, v);
    var c := ChunkAt(mug(k), d);
    if Bit(s.bitmap, c) {
      var idx := HypotheticalIndex(s.bitmap, c);
      SlotShaped(s, d, c);
      assert PlacedChild(s, d, mug, p, c);
      EntryStored(s.buffer, idx);
      match s.buffer[idx]
      case EStem(t) =>
        OnPathSnoc(mug(k), p, c);
        StemPlaced(s, d, mug, p, c, t);
        q := AgreeIn(t, d + 1, mug, k, v, f, p + [c]);
      case ELeaf(l) =>
        q := AgreeLeaf(s, d, c, l, mug, k, v, f, p);
    }
  }

  lemma {:induction false} AgreeLeaf<V>(s: Stem<V>, d: nat, c: Chunk, l: Leaf<V>, mug: Mug, k: Noun, v: V, f: nat, p: seq<Chunk>) returns (q: (Noun, V))
    requires Shaped(s, d) && Bit(s.bitmap, c) && c == ChunkAt(mug(k), d)
    requires HypotheticalIndex(s.bitmap, c) < |s.buffer| && s.buffer[HypotheticalIndex(s.bitmap, c)] == ELeaf(l)
    requires |p| == d && PlacedChild(s, d, mug, p, c) && OnPath(mug(k), p)
    ensures InsertAtLeaf(s, d, c, l, mug, k, v, f, true) == InsertAtLeaf(s, d, c, l, mug, k, v, f, false)
      || (q in LivePairs(l) && q.0 != k && Collide(mug(q.0), mug(k)))
    decreases 5 - d, 1
  {
    q := (k, v);
    SlotShaped(s, d, c);
    if FindKey(LivePairs(l), k).None? {
      LeafPlaced(s, d, mug, p, c, l);
      OnPathSnoc(mug(k), p, c);
      if d >= 5 {
        q := ChainCollides(l, mug, k, p + [c]);
      } else {
        q := AgreePush(s, d, c, l, mug, k, v, f, p);
      }
    }
  }

  /** A key absent from a depth-5 leaf collides with the leaf's first key. */
  lemma ChainCollides<V>(l: Leaf<V>, mug: Mug, k: Noun, p: seq<Chunk>) returns (q: (Noun, V))
    requires 1 <= l.len <= |l.buffer| && FindKey(LivePairs(l), k).None? && |p| == 6
    requires OnPath(mug(k), p) && OnPath(mug(l.buffer[0].0), p)
    ensures q in LivePairs(l) && q.0 != k && Collide(mug(q.0), mug(k))
  {
    q := LivePairs(l)[0];
    assert q == l.buffer[0];
  }

  lemma {:induction false} AgreePush<V>(s: Stem<V>, d: nat, c: Chunk, l: Leaf<V>, mug: Mug, k: Noun, v: V, f: nat, p: seq<Chunk>) returns (q: (Noun, V))
    requires Shaped(s, d) && Bit(s.bitmap, c) && c == ChunkAt(mug(k), d) && d < 5
    requires HypotheticalIndex(s.bitmap, c) < |s.buffer| && s.buffer[HypotheticalIndex(s.bitmap, c)] == ELeaf(l)
    requires l.len == 1 && |l.buffer| >= 1 && FindKey(LivePairs(l), k).None?
    requires |p| == d && OnPath(mug(k), p + [c]) && OnPath(mug(l.buffer[0].0), p + [c])
    ensures InsertAtLeaf(s, d, c, l, mug, k, v, f, true) == InsertAtLeaf(s, d, c, l, mug, k, v, f, false)
      || (q in LivePairs(l) && q.0 != k && Collide(mug(q.0), mug(k)))
    decreases 5 - d, 0
  {
    var fake := FakeStem(l, mug, d, f);
    PlacedFake(l, mug, d, f, p + [c]);
    q := AgreeIn(fake, d + 1, mug, k, v, f, p + [c]);
    assert EntriesPairs(fake.buffer) == LivePairs(l) by {
      assert fake.buffer[1..] == [];
    }
    if InsertIn(fake, d + 1, mug, k, v, f, true) == InsertIn(fake, d + 1, mug, k, v, f, false) {
      PushAgree(s, d, c, l, mug, k, v, f);
    }
  }

  /** Pushing agrees as soon as the insertion into the new stem agrees. */
  lemma PushAgree<V>(s: Stem<V>, d: nat, c: Chunk, l: Leaf<V>, mug: Mug, k: Noun, v: V, f: nat)
    requires Shaped(s, d) && Bit(s.bitmap, c) && c == ChunkAt(mug(k), d) && d < 5
    requires HypotheticalIndex(s.bitmap, c) < |s.buffer| && s.buffer[HypotheticalIndex(s.bitmap, c)] == ELeaf(l)
    requires l.len == 1 && |l.buffer| >= 1 && FindKey(LivePairs(l), k).None?
    requires InsertIn(FakeStem(l, mug, d, f), d + 1, mug, k, v, f, true) == InsertIn(FakeStem(l, mug, d, f), d + 1, mug, k, v, f, false)
    ensures InsertAtLeaf(s, d, c, l, mug, k, v, f, true) == InsertAtLeaf(s, d, c, l, mug, k, v, f, false)
  {
    PushIs(s, d, c, l, mug, k, v, f, true);
    PushIs(s, d, c, l, mug, k, v, f, false);
  }

  /** The stem an insert builds when it pushes a one-pair leaf down. */
  lemma PushIs<V>(s: Stem<V>, d: nat, c: Chunk, l: Leaf<V>, mug: Mug, k: Noun, v: V, f: nat, asWritten: bool)
    requires Shaped(s, d) && Bit(s.bitmap, c) && c == ChunkAt(mug(k), d) && d < 5
    requires HypotheticalIndex(s.bitmap, c) < |s.buffer| && s.buffer[HypotheticalIndex(s.bitmap, c)] == ELeaf(l)
    requires l.len == 1 && |l.buffer| >= 1 && FindKey(LivePairs(l), k).None?
    ensures InsertAtLeaf(s, d, c, l, mug, k, v, f, asWritten)
      == Stem(s.bitmap, SetSlot(s.typemap, c), f,
              s.buffer[HypotheticalIndex(s.bitmap, c) := EStem(InsertIn(FakeStem(l, mug, d, f), d + 1, mug, k, v, f, asWritten))])
  {
  }

  /** On a placed map with no key colliding with `k`, `Hamt::insert` as
      written builds exactly the map the corrected insert builds. */
  lemma AsWrittenAgrees<V>(m: HamtMap<V>, mug: Mug, k: Noun, v: V, f: nat)
    requires Shaped(m.root, 0) && Placed(m, mug) && NoCollision(m, mug, k)
    ensures InsertAsWritten(m, mug, k, v, f) == Insert(m, mug, k, v, f)
  {
    var q := AgreeIn(m.root, 0, mug, k, v, f, []);
  }

  // ---------------------------------------------------------------------
  // Inserts keep the keys of every leaf distinct.

  /** No leaf below the stem holds a key twice. */
  ghost predicate DistinctStem<V>(s: Stem<V>, d: nat)
    requires Shaped(s, d)
    decreases s, 1
  {
    forall c: Chunk :: DistinctChild(s, d, c)
  }

  ghost predicate DistinctChild<V>(s: Stem<V>, d: nat, c: Chunk)
    requires Shaped(s, d)
    decreases s, 0
  {
    match Child(s, d, c)
    case None => true
    case Some(e) => DistinctEntry(e, d)
  }

  ghost predicate DistinctEntry<V>(e: Entry<V>, d: nat)
    requires EntryShaped(e, d)
    decreases e, 2
  {
    match e
    case EStem(t) => DistinctStem(t, d + 1)
    case ELeaf(l) => DistinctKeys(LivePairs(l))
  }

  ghost predicate DistinctLeaves<V>(m: HamtMap<V>)
    requires Shaped(m.root, 0)
  {
    DistinctStem(m.root, 0)
  }

  /** `Hamt::new` has no leaf at all. */
  lemma DistinctEmpty<V>()
    ensures DistinctLeaves(Empty<V>())
  {
    forall c: Chunk ensures DistinctChild(Empty<V>().root, 0, c) {
      ZeroBit(c);
    }
  }

  /** Both the corrected insert and the insert as written keep the keys of
      every leaf distinct: a key already in its leaf has its value replaced,
      and an absent one is added once. */
  lemma DistinctInsert<V>(m: HamtMap<V>, mug: Mug, k: Noun, v: V, f: nat, asWritten: bool)
    requires Shaped(m.root, 0) && DistinctLeaves(m)
    ensures DistinctLeaves(HamtMap(InsertIn(m.root, 0, mug, k, v, f, asWritten)))
  {
    DistinctInsertIn(m.root, 0, mug, k, v, f, asWritten);
  }

  lemma {:induction false} DistinctInsertIn<V>(s: Stem<V>, d: nat, mug: Mug, k: Noun, v: V, f: nat, asWritten: bool)
    requires Shaped(s, d) && DistinctStem(s, d)
    ensures DistinctStem(InsertIn(s, d, mug, k, v, f, asWritten), d)
    decreases 5 - d, 3
  {
    var r := InsertIn(s, d, mug, k, v, f, asWritten);
    var c := ChunkAt(mug(k), d);
    forall c2: Chunk ensures DistinctChild(r, d, c2) {
      assert DistinctChild(s, d, c2);
      if c2 != c {
        InsertOtherSlot(s, d, mug, k, v, f, asWritten, c2);
      } else if !Bit(s.bitmap, c) {
        assert r == InsertEmpty(s, d, c, k, v, f);
        EmptySlot(s, d, c, k, v, f);
      } else {
        DistinctThrough(s, d, mug, k, v, f, asWritten);
      }
    }
  }

  /** The key's occupied slot keeps its leaves' keys distinct. */
  lemma {:induction false} DistinctThrough<V>(s: Stem<V>, d: nat, mug: Mug, k: Noun, v: V, f: nat, asWritten: bool)
    requires Shaped(s, d) && Bit(s.bitmap, ChunkAt(mug(k), d))
    requires DistinctChild(s, d, ChunkAt(mug(k), d))
    ensures DistinctChild(InsertIn(s, d, mug, k, v, f, asWritten), d, ChunkAt(mug(k), d))
    decreases 5 - d, 2
  {
    var c := ChunkAt(mug(k), d);
    assert InsertIn(s, d, mug, k, v, f, asWritten) == InsertAtSlot(s, d, c, mug, k, v, f, asWritten);
    SlotShaped(s, d, c);
    match s.buffer[HypotheticalIndex(s.bitmap, c)]
    case EStem(t) =>
      AtSlotStem(s, d, c, t, mug, k, v, f, asWritten);
      StemDistinct(s, d, c, t);
      DistinctInsertIn(t, d + 1, mug, k, v, f, asWritten);
    case ELeaf(l) =>
      AtSlotLeaf(s, d, c, l, mug, k, v, f, asWritten);
      DistinctInsertLeaf(s, d, c, l, mug, k, v, f, asWritten);
  }

  lemma {:induction false} DistinctInsertLeaf<V>(s: Stem<V>, d: nat, c: Chunk, l: Leaf<V>, mug: Mug, k: Noun, v: V, f: nat, asWritten: bool)
    requires Shaped(s, d) && Bit(s.bitmap, c) && c == ChunkAt(mug(k), d)
    requires HypotheticalIndex(s.bitmap, c) < |s.buffer| && s.buffer[HypotheticalIndex(s.bitmap, c)] == ELeaf(l)
    requires DistinctChild(s, d, c)
    ensures DistinctChild(InsertAtLeaf(s, d, c, l, mug, k, v, f, asWritten), d, c)
    decreases 5 - d, 1
  {
    SlotShaped(s, d, c);
    var ps := LivePairs(l);
    assert DistinctKeys(ps);
    match FindKey(ps, k)
    case Some(ldx) =>
      AtLeafFound(s, d, c, l, mug, k, v, f, asWritten, ldx);
      FoundDistinct(ps, ldx, v);
    case None =>
      if d >= 5 {
        AtLeafChain(s, d, c, l, mug, k, v, f, asWritten);
        ChainDistinct(ps, k, v, if asWritten then l.len else l.len + 1);
      } else {
        AtLeafPush(s, d, c, l, mug, k, v, f, asWritten);
        DistinctFake(l, mug, d, f);
        DistinctInsertIn(FakeStem(l, mug, d, f), d + 1, mug, k, v, f, asWritten);
      }
  }

  /** Rewriting the value of one pair keeps the keys. */
  lemma FoundDistinct<V>(ps: seq<(Noun, V)>, ldx: nat, v: V)
    requires DistinctKeys(ps) && ldx < |ps|
    ensures DistinctKeys(ps[ldx := (ps[ldx].0, v)][..|ps|])
  {
    var q := ps[ldx := (ps[ldx].0, v)][..|ps|];
    assert forall i | 0 <= i < |q| :: q[i].0 == ps[i].0;
  }

  /** Chaining an absent key keeps the live keys distinct, whatever length
      the new leaf keeps. */
  lemma ChainDistinct<V>(ps: seq<(Noun, V)>, k: Noun, v: V, len: nat)
    requires DistinctKeys(ps) && FindKey(ps, k) == None && len <= |ps| + 1
    ensures DistinctKeys((ps + [(k, v)])[..len])
  {
    var q := (ps + [(k, v)])[..len];
    assert forall i | 0 <= i < |q| :: q[i].0 == if i < |ps| then ps[i].0 else k;
  }

  /** The stem a one-pair leaf is pushed down into has distinct leaves. */
  lemma DistinctFake<V>(l: Leaf<V>, mug: Mug, d: nat, f: nat)
    requires d < 5 && l.len == 1 && |l.buffer| >= 1
    ensures DistinctStem(FakeStem(l, mug, d, f), d + 1)
  {
    var fake := FakeStem(l, mug, d, f);
    var d1 := d + 1;
    var fc := ChunkAt(mug(l.buffer[0].0), d1);
    forall c2: Chunk ensures DistinctChild(fake, d1, c2) {
      ToBitBit(fc, c2);
    }
    assert DistinctStem(fake, d1);
  }

  /** A stem below a slot with distinct leaves has distinct leaves. */
  lemma StemDistinct<V>(s: Stem<V>, d: nat, c: Chunk, t: Stem<V>)
    requires Shaped(s, d) && DistinctChild(s, d, c) && Child(s, d, c) == Some(EStem(t))
    ensures d < 5 && Shaped(t, d + 1) && DistinctStem(t, d + 1)
  {
  }

  /** A leaf in a slot with distinct leaves has distinct keys. */
  lemma LeafDistinct<V>(s: Stem<V>, d: nat, c: Chunk, l: Leaf<V>)
    requires Shaped(s, d) && DistinctChild(s, d, c) && Child(s, d, c) == Some(ELeaf(l))
    ensures DistinctKeys(LivePairs(l))
  {
  }

  /** A map whose stored keys are all distinct has distinct leaves. */
  lemma DistinctFromPairs<V>(m: HamtMap<V>)
    requires Shaped(m.root, 0) && DistinctKeys(Pairs(m))
    ensures DistinctLeaves(m)
  {
    DistinctStemFromPairs(m.root, 0);
  }

  lemma {:induction false} DistinctStemFromPairs<V>(s: Stem<V>, d: nat)
    requires Shaped(s, d) && DistinctKeys(EntriesPairs(s.buffer))
    ensures DistinctStem(s, d)
    decreases s
  {
    forall c: Chunk ensures DistinctChild(s, d, c) {
      if Bit(s.bitmap, c) {
        SlotShaped(s, d, c);
        var i := HypotheticalIndex(s.bitmap, c);
        DistinctPart(s.buffer, i);
        match s.buffer[i]
        case EStem(t) =>
          DistinctStemFromPairs(t, d + 1);
        case ELeaf(l) =>
      }
    }
  }

  // ---------------------------------------------------------------------
  // Lookup finds exactly the stored pairs.

  lemma {:induction false} DistinctAppend<V>(a: seq<(Noun, V)>, b: seq<(Noun, V)>)
    requires DistinctKeys(a + b)
    ensures DistinctKeys(a) && DistinctKeys(b)
  {
    forall i, j | 0 <= i < j < |b| ensures b[i].0 != b[j].0 {
      assert (a + b)[|a| + i] == b[i] && (a + b)[|a| + j] == b[j];
    }
    forall i, j | 0 <= i < j < |a| ensures a[i].0 != a[j].0 {
      assert (a + b)[i] == a[i] && (a + b)[j] == a[j];
    }
  }

  /** A stored pair lies below one of the entries. */
  lemma {:induction false} StoredAt<V>(es: seq<Entry<V>>, x: (Noun, V)) returns (i: nat)
    requires x in EntriesPairs(es)
    ensures i < |es| && x in EntryPairs(es[i])
    decreases es
  {
    if x in EntryPairs(es[0]) {
      i := 0;
    } else {
      var j := StoredAt(es[1..], x);
      i := j + 1;
    }
  }

  /** The pairs below one entry are part of the pairs of all of them. */
  lemma {:induction false} DistinctPart<V>(es: seq<Entry<V>>, i: nat)
    requires i < |es| && DistinctKeys(EntriesPairs(es))
    ensures DistinctKeys(EntryPairs(es[i]))
    decreases es
  {
    DistinctAppend(EntryPairs(es[0]), EntriesPairs(es[1..]));
    if i > 0 {
      DistinctPart(es[1..], i - 1);
    }
  }

  /** With distinct keys, the scan finds the stored value. */
  lemma {:induction false} FindDistinct<V>(ps: seq<(Noun, V)>, k: Noun, v: V)
    requires (k, v) in ps && DistinctKeys(ps)
    ensures FindValue(ps, k) == Some(v)
  {
    var j :| 0 <= j < |ps| && ps[j] == (k, v);
    var i := FindKey(ps, k).value;
    assert i == j;
  }

  /** A lookup finds every pair the tree stores, and the key of that pair
      follows the path to the tree. */
  lemma {:induction false} StoredFoundIn<V>(s: Stem<V>, d: nat, mug: Mug, p: seq<Chunk>, k: Noun, v: V)
    requires Shaped(s, d) && PlacedStem(s, d, mug, p) && DistinctStem(s, d)
    requires (k, v) in EntriesPairs(s.buffer)
    ensures LookupIn(s, d, mug, k) == Some(v) && OnPath(mug(k), p)
    decreases s
  {
    var i := StoredAt(s.buffer, (k, v));
    PopCountIsCount(s.bitmap);
    var c := IndexOnto(s.bitmap, i, 32);
    SlotShaped(s, d, c);
    assert PlacedChild(s, d, mug, p, c) && DistinctChild(s, d, c);
    match s.buffer[i]
    case EStem(t) =>
      StemPlaced(s, d, mug, p, c, t);
      StemDistinct(s, d, c, t);
      StoredFoundIn(t, d + 1, mug, p + [c], k, v);
      OnPathPrefix(mug(k), p, c);
      LookupStep(s, d, mug, k);
    case ELeaf(l) =>
      var ps := LivePairs(l);
      var j :| 0 <= j < |ps| && ps[j] == (k, v);
      LeafPlaced(s, d, mug, p, c, l);
      LeafDistinct(s, d, c, l);
      assert OnPath(mug(l.buffer[j].0), p + [c]);
      OnPathPrefix(mug(k), p, c);
      LookupStep(s, d, mug, k);
      FindDistinct(ps, k, v);
  }

  /** On a placed map with distinct keys in every leaf, a lookup finds `v`
      under `k` exactly when the map stores the pair, that is, exactly when
      the iterator yields it. Every map built from `Hamt::new` by inserts
      qualifies (`PlacedEmpty`, `PlacedInsert`, `DistinctEmpty`,
      `DistinctInsert`), and so does every map whose stored keys are all
      distinct (`DistinctFromPairs`). */
  lemma LookupIffStored<V>(m: HamtMap<V>, mug: Mug, k: Noun, v: V)
    requires Shaped(m.root, 0) && Placed(m, mug) && DistinctLeaves(m)
    ensures Lookup(m, mug, k) == Some(v) <==> (k, v) in Pairs(m)
  {
    LookupStored(m.root, 0, mug, k);
    if (k, v) in Pairs(m) {
      StoredFoundIn(m.root, 0, mug, [], k, v);
    }
  }
}
