/** `Preserve for Hamt` (rust/ares/src/hamt.rs:483-561): before the current
    stack frame is popped, every buffer of the map that lives in that frame
    is copied into the previous frame and its parent's entry is pointed at
    the copy. Frames are numbered from the oldest; a buffer's `frame` tag
    says where it lives, 0 being memory outside the stack, and the previous
    frame of frame `cur` is `cur - 1`. */
module HamtPreserve {
  import opened Nouns
  import opened Bits32
  import opened Hamt
  import opened HamtIter

  // ---------------------------------------------------------------------
  // The result, as a recursive function.

  /** A stem in frame `cur` is copied to `cur - 1` with its entries
      preserved; a stem elsewhere is left as it is, and is not entered. */
  function PreserveStem<V>(s: Stem<V>, cur: nat): Stem<V>
    requires cur > 0
    decreases s, 2
  {
    if s.frame == cur then Stem(s.bitmap, s.typemap, cur - 1, PreserveFrom(s, 0, cur)) else s
  }

  /** The entries of `s` from index `n` on, preserved. */
  function PreserveFrom<V>(s: Stem<V>, n: nat, cur: nat): (r: seq<Entry<V>>)
    requires cur > 0 && n <= |s.buffer|
    ensures |r| == |s.buffer| - n
    ensures forall i | 0 <= i < |r| :: r[i] == PreserveEntry(s.buffer[n + i], cur)
    decreases s, 1, |s.buffer| - n
  {
    if n == |s.buffer| then [] else [PreserveEntry(s.buffer[n], cur)] + PreserveFrom(s, n + 1, cur)
  }

  /** A leaf in frame `cur` is copied with its pairs; keys and values are
      values here, so their own `preserve` leaves them equal. */
  function PreserveEntry<V>(e: Entry<V>, cur: nat): Entry<V>
    requires cur > 0
    decreases e, 0
  {
    match e
    case EStem(t) => EStem(PreserveStem(t, cur))
    case ELeaf(l) => if l.frame == cur then ELeaf(l.(frame := cur - 1)) else e
  }

  /** The stack discipline: nothing lives in a frame newer than `f`, and no
      buffer points into a frame newer than its own. */
  ghost predicate Nested<V>(s: Stem<V>, f: nat)
    decreases s
  {
    s.frame <= f && forall i | 0 <= i < |s.buffer| :: EntryNested(s.buffer[i], s.frame)
  }

  ghost predicate EntryNested<V>(e: Entry<V>, f: nat)
    decreases e
  {
    match e
    case EStem(t) => Nested(t, f)
    case ELeaf(l) => l.frame <= f
  }

  // ---------------------------------------------------------------------
  // What preserve keeps.

  lemma PreserveTag<V>(e: Entry<V>, cur: nat)
    requires cur > 0
    ensures PreserveEntry(e, cur).EStem? == e.EStem?
    ensures e.ELeaf? ==> PreserveEntry(e, cur).leaf.len == e.leaf.len && PreserveEntry(e, cur).leaf.buffer == e.leaf.buffer
  {
  }

  /** The copy has the same shape. */
  lemma {:induction false} PreserveShaped<V>(s: Stem<V>, d: nat, cur: nat)
    requires cur > 0 && Shaped(s, d)
    ensures Shaped(PreserveStem(s, cur), d)
    decreases s
  {
    if s.frame == cur {
      var r := PreserveStem(s, cur);
      forall c: Chunk | Occupied(r, c)
        ensures HypotheticalIndex(r.bitmap, c) < |r.buffer|
        ensures Bit(r.typemap, c) <==> r.buffer[HypotheticalIndex(r.bitmap, c)].EStem?
      {
        SlotShaped(s, d, c);
        PreserveTag(s.buffer[HypotheticalIndex(s.bitmap, c)], cur);
      }
      forall i | 0 <= i < |r.buffer|
        ensures EntryShaped(r.buffer[i], d)
      {
        PreserveEntryShaped(s, d, cur, i);
      }
    }
  }

  lemma {:induction false} PreserveEntryShaped<V>(s: Stem<V>, d: nat, cur: nat, i: nat)
    requires cur > 0 && Shaped(s, d) && i < |s.buffer|
    ensures EntryShaped(PreserveEntry(s.buffer[i], cur), d)
    decreases s, 0
  {
    assert EntryShaped(s.buffer[i], d);
    match s.buffer[i]
    case EStem(t) =>
      PreserveShaped(t, d + 1, cur);
    case ELeaf(l) =>
  }

  /** Every key keeps its value. */
  lemma {:induction false} PreserveLookup<V>(s: Stem<V>, d: nat, mug: Mug, k: Noun, cur: nat)
    requires cur > 0 && Shaped(s, d)
    ensures Shaped(PreserveStem(s, cur), d)
    ensures LookupIn(PreserveStem(s, cur), d, mug, k) == LookupIn(s, d, mug, k)
    decreases s
  {
    PreserveShaped(s, d, cur);
    if s.frame == cur {
      var r := PreserveStem(s, cur);
      var c := ChunkAt(mug(k), d);
      PreserveChild(s, d, c, cur);
      match Child(s, d, c)
      case None =>
      case Some(e) =>
        match e
        case EStem(t) =>
          PreserveLookup(t, d + 1, mug, k, cur);
        case ELeaf(l) =>
    }
  }

  lemma PreserveChild<V>(s: Stem<V>, d: nat, c: Chunk, cur: nat)
    requires cur > 0 && Shaped(s, d) && s.frame == cur
    ensures Shaped(PreserveStem(s, cur), d)
    ensures Child(s, d, c).Some? ==> Child(PreserveStem(s, cur), d, c) == Some(PreserveEntry(Child(s, d, c).value, cur))
  {
    PreserveShaped(s, d, cur);
  }

  /** Every pair stays, in the same order. */
  lemma PreservePairs<V>(s: Stem<V>, cur: nat)
    requires cur > 0
    ensures EntriesPairs(PreserveStem(s, cur).buffer) == EntriesPairs(s.buffer)
    decreases s, 1
  {
    if s.frame == cur {
      PreserveSuffixPairs(s, 0, cur);
      assert s.buffer[0..] == s.buffer;
    }
  }

  /** The entries of `s` from `n` on keep their pairs. */
  lemma {:induction false} PreserveSuffixPairs<V>(s: Stem<V>, n: nat, cur: nat)
    requires cur > 0 && n <= |s.buffer|
    ensures EntriesPairs(PreserveFrom(s, n, cur)) == EntriesPairs(s.buffer[n..])
    decreases s, 0, |s.buffer| - n
  {
    if n < |s.buffer| {
      var es := s.buffer[n..];
      assert es[1..] == s.buffer[n + 1..];
      assert PreserveFrom(s, n, cur)[1..] == PreserveFrom(s, n + 1, cur);
      PreserveSuffixPairs(s, n + 1, cur);
      match s.buffer[n]
      case EStem(t) =>
        PreservePairs(t, cur);
      case ELeaf(l) =>
    }
  }

  /** Nothing of the result lies in frame `cur`, and the stack discipline
      still holds: popping the frame leaves no dangling reference. */
  lemma {:induction false} PreserveEvacuates<V>(s: Stem<V>, cur: nat)
    requires cur > 0 && Nested(s, cur)
    ensures Nested(PreserveStem(s, cur), cur - 1)
    decreases s
  {
    if s.frame == cur {
      var r := PreserveStem(s, cur);
      forall i | 0 <= i < |r.buffer|
        ensures EntryNested(r.buffer[i], cur - 1)
      {
        PreserveEntryEvacuates(s, cur, i);
      }
    }
  }

  lemma {:induction false} PreserveEntryEvacuates<V>(s: Stem<V>, cur: nat, i: nat)
    requires cur > 0 && Nested(s, cur) && s.frame == cur && i < |s.buffer|
    ensures EntryNested(PreserveEntry(s.buffer[i], cur), cur - 1)
    decreases s, 0
  {
    assert EntryNested(s.buffer[i], cur);
    match s.buffer[i]
    case EStem(t) =>
      PreserveEvacuates(t, cur);
    case ELeaf(l) =>
  }

  /** Buffers outside the frame are untouched: a stem whose own buffer is
      elsewhere comes back as it is, and so does a leaf elsewhere. */
  lemma PreserveOutside<V>(e: Entry<V>, cur: nat)
    requires cur > 0
    ensures e.ELeaf? && e.leaf.frame != cur ==> PreserveEntry(e, cur) == e
    ensures e.EStem? && e.stem.frame != cur ==> PreserveEntry(e, cur) == e
  {
  }

  // ---------------------------------------------------------------------
  // Insert keeps the stack discipline.

  /** An insert whose copies are allocated in frame `f`, into a map that
      lives no newer than `f`, leaves a map that lives no newer than `f`. */
  lemma {:induction false} InsertNested<V>(s: Stem<V>, d: nat, mug: Mug, k: Noun, v: V, f: nat, asWritten: bool)
    requires Shaped(s, d) && Nested(s, f)
    ensures Nested(InsertIn(s, d, mug, k, v, f, asWritten), f)
    decreases 5 - d, 2
  {
    var c := ChunkAt(mug(k), d);
    if !Bit(s.bitmap, c) {
      InsertEmptyNested(s, d, c, k, v, f);
    } else {
      InsertAtSlotNested(s, d, c, mug, k, v, f, asWritten);
    }
  }

  lemma InsertEmptyNested<V>(s: Stem<V>, d: nat, c: Chunk, k: Noun, v: V, f: nat)
    requires Shaped(s, d) && Nested(s, f) && !Bit(s.bitmap, c)
    ensures Nested(InsertEmpty(s, d, c, k, v, f), f)
  {
    var split := HypotheticalIndex(s.bitmap, c);
    IndexAtMostSize(s.bitmap, c);
    SpliceNested(s, InsertEmpty(s, d, c, k, v, f), split, ELeaf(Leaf(f, 1, [(k, v)])), f);
  }

  /** A stem in frame `f` whose buffer is that of `s` with one entry
      spliced in, an entry that lives no newer than `f`, is nested in `f`. */
  lemma SpliceNested<V>(s: Stem<V>, r: Stem<V>, split: nat, e: Entry<V>, f: nat)
    requires Nested(s, f) && r.frame == f && split <= |s.buffer| && EntryNested(e, f)
    requires r.buffer == s.buffer[..split] + [e] + s.buffer[split..]
    ensures Nested(r, f)
  {
    forall i | 0 <= i < |r.buffer|
      ensures EntryNested(r.buffer[i], f)
    {
      if i != split {
        var j := if i < split then i else i - 1;
        assert r.buffer[i] == s.buffer[j] by {
          if i < split {
            assert r.buffer[i] == s.buffer[..split][i];
          } else {
            assert r.buffer[i] == s.buffer[split..][i - split - 1];
          }
        }
        EntryNestedMono(s.buffer[j], s.frame, f);
      }
    }
  }

  lemma {:induction false} InsertAtSlotNested<V>(s: Stem<V>, d: nat, c: Chunk, mug: Mug, k: Noun, v: V, f: nat, asWritten: bool)
    requires Shaped(s, d) && Nested(s, f) && Bit(s.bitmap, c) && c == ChunkAt(mug(k), d)
    ensures Nested(InsertAtSlot(s, d, c, mug, k, v, f, asWritten), f)
    decreases 5 - d, 1
  {
    var idx := HypotheticalIndex(s.bitmap, c);
    SlotShaped(s, d, c);
    var r := InsertAtSlot(s, d, c, mug, k, v, f, asWritten);
    match s.buffer[idx]
    case EStem(t) =>
      assert EntryNested(s.buffer[idx], s.frame);
      NestedMono(t, s.frame, f);
      InsertNested(t, d + 1, mug, k, v, f, asWritten);
      KeptNested(s, r, idx, f);
    case ELeaf(l) =>
      InsertAtLeafNested(s, d, c, l, mug, k, v, f, asWritten);
  }

  lemma {:induction false} InsertAtLeafNested<V>(s: Stem<V>, d: nat, c: Chunk, l: Leaf<V>, mug: Mug, k: Noun, v: V, f: nat, asWritten: bool)
    requires Shaped(s, d) && Nested(s, f) && Bit(s.bitmap, c) && c == ChunkAt(mug(k), d)
    requires HypotheticalIndex(s.bitmap, c) < |s.buffer| && s.buffer[HypotheticalIndex(s.bitmap, c)] == ELeaf(l)
    ensures Nested(InsertAtLeaf(s, d, c, l, mug, k, v, f, asWritten), f)
    decreases 5 - d, 0
  {
    var idx := HypotheticalIndex(s.bitmap, c);
    SlotShaped(s, d, c);
    var r := InsertAtLeaf(s, d, c, l, mug, k, v, f, asWritten);
    if FindKey(LivePairs(l), k).None? && d < 5 {
      assert EntryNested(s.buffer[idx], s.frame);
      var fake := FakeStem(l, mug, d, f);
      assert fake.buffer == [ELeaf(l)];
      assert EntryNested(fake.buffer[0], f);
      InsertNested(fake, d + 1, mug, k, v, f, asWritten);
      assert r.buffer[idx] == EStem(InsertIn(fake, d + 1, mug, k, v, f, asWritten));
    } else {
      assert r.buffer[idx].ELeaf? && r.buffer[idx].leaf.frame == f;
    }
    KeptNested(s, r, idx, f);
  }

  /** A stem in frame `f` whose entries other than `idx` are those of `s`,
      and whose entry `idx` lives no newer than `f`, is nested in `f`. */
  lemma KeptNested<V>(s: Stem<V>, r: Stem<V>, idx: nat, f: nat)
    requires Nested(s, f) && r.frame == f && |r.buffer| == |s.buffer| && idx < |r.buffer|
    requires forall i | 0 <= i < |s.buffer| && i != idx :: r.buffer[i] == s.buffer[i]
    requires EntryNested(r.buffer[idx], f)
    ensures Nested(r, f)
  {
    forall i | 0 <= i < |r.buffer| && i != idx
      ensures EntryNested(r.buffer[i], f)
    {
      EntryNestedMono(s.buffer[i], s.frame, f);
    }
  }

  lemma NestedMono<V>(t: Stem<V>, a: nat, b: nat)
    requires Nested(t, a) && a <= b
    ensures Nested(t, b)
  {
  }

  lemma EntryNestedMono<V>(e: Entry<V>, a: nat, b: nat)
    requires EntryNested(e, a) && a <= b
    ensures EntryNested(e, b)
  {
  }

  // ---------------------------------------------------------------------
  // The traversal.

  /** An entry of the traversal stack: the copy being filled in, the next
      slot to look at, and the index of the copy in its parent's buffer
      (where the source writes the new entry through a pointer). */
  datatype Visit<V> = Visit(stem: Stem<V>, position: Span, idx: nat)

  /** The copy in `v` of the stem `o` at depth `j`, with its first `done`
      entries preserved and the rest as in `o`. */
  ghost predicate Partial<V>(v: Visit<V>, o: Stem<V>, j: nat, cur: nat, done: nat)
    requires cur > 0
  {
    && Shaped(o, j) && o.frame == cur
    && v.stem.bitmap == o.bitmap && v.stem.typemap == o.typemap && v.stem.frame == cur - 1
    && |v.stem.buffer| == |o.buffer| && done <= |o.buffer|
    && forall i | 0 <= i < |o.buffer| ::
         v.stem.buffer[i] == if i < done then PreserveEntry(o.buffer[i], cur) else o.buffer[i]
  }

  /** The visits below the top, each waiting for the child above it: that
      child `co` is entry `ci` of the visit's original, the last slot the
      visit has passed. */
  ghost predicate Pending<V>(lower: seq<Visit<V>>, origs: seq<Stem<V>>, cur: nat, ci: nat, co: Stem<V>)
    requires cur > 0
    decreases |lower|
  {
    && |lower| == |origs|
    && (lower != [] ==>
          var j := |lower| - 1;
          && Partial(lower[j], origs[j], j, cur, ci)
          && ci + 1 == CountBits(origs[j].bitmap, lower[j].position)
          && ci < |origs[j].buffer| && origs[j].buffer[ci] == EStem(co)
          && Pending(lower[..j], origs[..j], cur, lower[j].idx, origs[j]))
  }

  /** The slots a visit still has to look at, plus one while it is on the
      stack: 33 - p. */
  function Left(p: Span): nat
    decreases 32 - p
  {
    if p == 32 then 1 else 1 + Left(p + 1)
  }

  ghost function Measure<V>(lower: seq<Visit<V>>, top: Visit<V>, j: nat): nat
  {
    if j < |lower| then Left(lower[j].position) else if j == |lower| then Left(top.position) else 0
  }

  /** The six measures, one per depth, go down lexicographically. */
  ghost predicate Descends<V>(lower': seq<Visit<V>>, top': Visit<V>, lower: seq<Visit<V>>, top: Visit<V>)
  {
    Lex(Measure(lower', top', 0), Measure(lower', top', 1), Measure(lower', top', 2),
        Measure(lower', top', 3), Measure(lower', top', 4), Measure(lower', top', 5),
        Measure(lower, top, 0), Measure(lower, top, 1), Measure(lower, top, 2),
        Measure(lower, top, 3), Measure(lower, top, 4), Measure(lower, top, 5))
  }

  predicate Lex(a0: nat, a1: nat, a2: nat, a3: nat, a4: nat, a5: nat,
                b0: nat, b1: nat, b2: nat, b3: nat, b4: nat, b5: nat)
  {
    a0 < b0 || (a0 == b0 && (a1 < b1 || (a1 == b1 && (a2 < b2 || (a2 == b2 &&
      (a3 < b3 || (a3 == b3 && (a4 < b4 || (a4 == b4 && a5 < b5)))))))))
  }

  lemma DescendsAt<V>(lower': seq<Visit<V>>, top': Visit<V>, lower: seq<Visit<V>>, top: Visit<V>, k: nat)
    requires k < 6 && Measure(lower', top', k) < Measure(lower, top, k)
    requires forall j | 0 <= j < k :: Measure(lower', top', j) == Measure(lower, top, j)
    ensures Descends(lower', top', lower, top)
  {
    if k > 0 { assert Measure(lower', top', 0) == Measure(lower, top, 0); }
    if k > 1 { assert Measure(lower', top', 1) == Measure(lower, top, 1); }
    if k > 2 { assert Measure(lower', top', 2) == Measure(lower, top, 2); }
    if k > 3 { assert Measure(lower', top', 3) == Measure(lower, top, 3); }
    if k > 4 { assert Measure(lower', top', 4) == Measure(lower, top, 4); }
  }

  /** The loop invariant of the traversal: the top visit is a partial copy
      of `topOrig`, the visits below wait for their children, and the
      bottom one is the root. */
  ghost predicate Traversal<V>(lower: seq<Visit<V>>, top: Visit<V>, origs: seq<Stem<V>>, topOrig: Stem<V>, cur: nat, root: Stem<V>)
    requires cur > 0
  {
    && Partial(top, topOrig, |lower|, cur, CountBits(topOrig.bitmap, top.position))
    && Pending(lower, origs, cur, top.idx, topOrig)
    && (if lower == [] then topOrig else origs[0]) == root
  }

  /** `Hamt::preserve`: copies the root buffer if it is in frame `cur`, then
      walks the copy with a stack of at most six visits, copying each entry
      that is in the frame and descending into the stems it copies. */
  method Preserve<V>(m: HamtMap<V>, cur: nat) returns (r: HamtMap<V>)
    requires Shaped(m.root, 0) && cur > 0
    ensures r.root == PreserveStem(m.root, cur)
  {
    if m.root.frame != cur {
      return m;
    }
    var top := Visit(m.root.(frame := cur - 1), 0, 0);
    var lower: seq<Visit<V>> := [];
    ghost var topOrig := m.root;
    ghost var origs: seq<Stem<V>> := [];
    while true
      invariant Traversal(lower, top, origs, topOrig, cur, m.root)
      decreases Measure(lower, top, 0), Measure(lower, top, 1), Measure(lower, top, 2),
                Measure(lower, top, 3), Measure(lower, top, 4), Measure(lower, top, 5)
    {
      ghost var lower0, top0 := lower, top;
      if top.position >= 32 {
        if lower == [] {
          FinishVisit(top, topOrig, 0, cur);
          return HamtMap(top.stem);
        }
        lower, top, origs, topOrig := PopVisit(lower, top, origs, topOrig, cur, m.root);
      } else {
        lower, top, origs, topOrig := VisitStep(lower, top, origs, topOrig, cur, m.root);
      }
      assert Descends(lower, top, lower0, top0);
    }
  }

  /** Back to the parent visit once all 32 slots are passed: the finished
      copy is the preserved stem and goes into the parent's entry. */
  method PopVisit<V>(lower: seq<Visit<V>>, top: Visit<V>, ghost origs: seq<Stem<V>>, ghost topOrig: Stem<V>, cur: nat, ghost root: Stem<V>)
    returns (lower': seq<Visit<V>>, top': Visit<V>, ghost origs': seq<Stem<V>>, ghost topOrig': Stem<V>)
    requires cur > 0 && Traversal(lower, top, origs, topOrig, cur, root) && top.position >= 32 && lower != []
    ensures Traversal(lower', top', origs', topOrig', cur, root)
    ensures Descends(lower', top', lower, top)
  {
    var n := |lower|;
    PopTraversal(lower, top, origs, topOrig, cur, root);
    PopDescends(lower, top, top.stem);
    top' := Plug(lower[n - 1], top.idx, top.stem);
    lower' := lower[..n - 1];
    topOrig' := origs[n - 1];
    origs' := origs[..n - 1];
  }

  /** The parent visit with its entry `idx` replaced by the finished copy
      `s` (the source's write through the saved pointer). */
  function Plug<V>(parent: Visit<V>, idx: nat, s: Stem<V>): (r: Visit<V>)
    requires idx < |parent.stem.buffer|
    ensures r.position == parent.position && r.idx == parent.idx
    ensures |r.stem.buffer| == |parent.stem.buffer| && r.stem.buffer[idx] == EStem(s)
  {
    Visit(parent.stem.(buffer := parent.stem.buffer[idx := EStem(s)]), parent.position, parent.idx)
  }

  /** Popping keeps the traversal invariant. */
  lemma PopTraversal<V>(lower: seq<Visit<V>>, top: Visit<V>, origs: seq<Stem<V>>, topOrig: Stem<V>, cur: nat, root: Stem<V>)
    requires cur > 0 && Traversal(lower, top, origs, topOrig, cur, root) && top.position >= 32 && lower != []
    ensures top.idx < |lower[|lower| - 1].stem.buffer| && |lower| <= 5
    ensures
      var n := |lower|;
      Traversal(lower[..n - 1], Plug(lower[n - 1], top.idx, top.stem), origs[..n - 1], origs[n - 1], cur, root)
  {
    var n := |lower|;
    FinishVisit(top, topOrig, n, cur);
    PopPending(lower, origs, top, topOrig, cur);
    if n > 1 {
      assert origs[..n - 1][0] == origs[0];
    }
  }

  /** Popping finishes the top visit's measure and leaves those below. */
  lemma PopDescends<V>(lower: seq<Visit<V>>, top: Visit<V>, s: Stem<V>)
    requires top.position >= 32 && 0 < |lower| <= 5 && top.idx < |lower[|lower| - 1].stem.buffer|
    ensures
      var n := |lower|;
      Descends(lower[..n - 1], Plug(lower[n - 1], top.idx, s), lower, top)
  {
    var n := |lower|;
    var top' := Plug(lower[n - 1], top.idx, s);
    assert Measure(lower[..n - 1], top', n) == 0 < Left(32) == Measure(lower, top, n);
    assert Measure(lower[..n - 1], top', n - 1) == Measure(lower, top, n - 1);
    DescendsAt(lower[..n - 1], top', lower, top, n);
  }

  /** One round at the top visit's current slot: pass it, or descend into
      the in-frame stem there. */
  method VisitStep<V>(lower: seq<Visit<V>>, top: Visit<V>, ghost origs: seq<Stem<V>>, ghost topOrig: Stem<V>, cur: nat, ghost root: Stem<V>)
    returns (lower': seq<Visit<V>>, top': Visit<V>, ghost origs': seq<Stem<V>>, ghost topOrig': Stem<V>)
    requires cur > 0 && Traversal(lower, top, origs, topOrig, cur, root) && top.position < 32
    ensures Traversal(lower', top', origs', topOrig', cur, root)
    ensures Descends(lower', top', lower, top)
  {
    var pos: Chunk := top.position;
    var next, child := VisitSlot(top, topOrig, |lower|, cur, pos);
    match child
    case None =>
      lower', top', origs', topOrig' := lower, next, origs, topOrig;
      DescendsAt(lower', top', lower, top, |lower|);
    case Some(p) =>
      var (t, idx) := p;
      DescendVisit(lower, origs, top, topOrig, cur, pos, idx, t);
      lower' := lower + [next];
      origs' := origs + [topOrig];
      top' := Visit(t.(frame := cur - 1), 0, idx);
      topOrig' := t;
      assert forall j | 0 <= j < |lower| :: lower'[j] == lower[j];
      DescendsAt(lower', top', lower, top, |lower|);
  }

  /** One round of the inner loop at slot `pos` (`stem.entry(position)`):
      an empty slot or an entry outside the frame is passed, an in-frame
      leaf is copied, and an in-frame stem is handed back to descend into,
      with its index. */
  method VisitSlot<V>(top: Visit<V>, ghost o: Stem<V>, ghost j: nat, cur: nat, pos: Chunk)
    returns (next: Visit<V>, child: Option<(Stem<V>, nat)>)
    requires cur > 0 && top.position == pos && Partial(top, o, j, cur, CountBits(o.bitmap, pos))
    ensures next.position == pos + 1 && next.idx == top.idx
    ensures child.None? ==> Partial(next, o, j, cur, CountBits(o.bitmap, pos + 1))
    ensures child.Some? ==>
      && next == top.(position := pos + 1) && Bit(o.bitmap, pos)
      && child.value.1 == HypotheticalIndex(o.bitmap, pos) && child.value.1 < |top.stem.buffer|
      && top.stem.buffer[child.value.1] == EStem(child.value.0) && child.value.0.frame == cur
  {
    next, child := top.(position := pos + 1), None;
    match Index(top.stem.bitmap, pos)
    case None =>
      StepKeep(top, o, j, cur, pos, 0);
    case Some(idx) =>
      match top.stem.buffer[idx]
      case EStem(t) =>
        if t.frame == cur {
          child := Some((t, idx));
        } else {
          StepKeep(top, o, j, cur, pos, idx);
        }
      case ELeaf(l) =>
        if l.frame == cur {
          StepLeaf(top, o, j, cur, pos, idx);
          next := next.(stem := top.stem.(buffer := top.stem.buffer[idx := ELeaf(l.(frame := cur - 1))]));
        } else {
          StepKeep(top, o, j, cur, pos, idx);
        }
  }

  /** Passing slot `pos` without changing the copy: an empty slot, or the
      entry `idx` outside the frame. */
  lemma StepKeep<V>(v: Visit<V>, o: Stem<V>, j: nat, cur: nat, pos: Chunk, idx: nat)
    requires cur > 0 && Partial(v, o, j, cur, CountBits(o.bitmap, pos))
    requires Bit(o.bitmap, pos) ==>
      && idx == HypotheticalIndex(o.bitmap, pos) && idx < |v.stem.buffer|
      && ((v.stem.buffer[idx].EStem? && v.stem.buffer[idx].stem.frame != cur)
          || (v.stem.buffer[idx].ELeaf? && v.stem.buffer[idx].leaf.frame != cur))
    ensures Partial(v.(position := pos + 1), o, j, cur, CountBits(o.bitmap, pos + 1))
  {
    CountNext(o.bitmap, pos);
    if Bit(o.bitmap, pos) {
      PreserveOutside(o.buffer[idx], cur);
    }
  }

  /** Copying the in-frame leaf `idx` at slot `pos`. */
  lemma StepLeaf<V>(v: Visit<V>, o: Stem<V>, j: nat, cur: nat, pos: Chunk, idx: nat)
    requires cur > 0 && Partial(v, o, j, cur, CountBits(o.bitmap, pos)) && Bit(o.bitmap, pos)
    requires idx == HypotheticalIndex(o.bitmap, pos) && idx < |v.stem.buffer|
    requires v.stem.buffer[idx].ELeaf? && v.stem.buffer[idx].leaf.frame == cur
    ensures
      var l := v.stem.buffer[idx].leaf;
      Partial(v.(stem := v.stem.(buffer := v.stem.buffer[idx := ELeaf(l.(frame := cur - 1))]), position := pos + 1),
              o, j, cur, CountBits(o.bitmap, pos + 1))
  {
    CountNext(o.bitmap, pos);
  }

  /** Descending into the in-frame stem `t` at slot `pos`: the visit waits
      for it, and `t`'s copy becomes the top with nothing done. */
  lemma DescendVisit<V>(lower: seq<Visit<V>>, origs: seq<Stem<V>>, top: Visit<V>, o: Stem<V>, cur: nat,
                        pos: Chunk, idx: nat, t: Stem<V>)
    requires cur > 0 && top.position == pos
    requires Partial(top, o, |lower|, cur, CountBits(o.bitmap, pos)) && Pending(lower, origs, cur, top.idx, o)
    requires Bit(o.bitmap, pos) && idx == HypotheticalIndex(o.bitmap, pos) && idx < |top.stem.buffer|
    requires top.stem.buffer[idx] == EStem(t) && t.frame == cur
    ensures Partial(Visit(t.(frame := cur - 1), 0, idx), t, |lower| + 1, cur, CountBits(t.bitmap, 0))
    ensures Pending(lower + [top.(position := pos + 1)], origs + [o], cur, idx, t)
    ensures |lower| < 5
  {
    DescendTop(o, |lower|, cur, pos, idx, t);
    DescendPending(lower, origs, top, o, cur, pos, idx, t);
  }

  /** The copy of the child starts with nothing done. */
  lemma DescendTop<V>(o: Stem<V>, j: nat, cur: nat, pos: Chunk, idx: nat, t: Stem<V>)
    requires Shaped(o, j) && Bit(o.bitmap, pos) && idx == HypotheticalIndex(o.bitmap, pos) && idx < |o.buffer|
    requires o.buffer[idx] == EStem(t) && t.frame == cur && cur > 0
    ensures Partial(Visit(t.(frame := cur - 1), 0, idx), t, j + 1, cur, CountBits(t.bitmap, 0))
    ensures j < 5
  {
    SlotShaped(o, j, pos);
  }

  /** The visit waits for the child at slot `pos`. */
  lemma DescendPending<V>(lower: seq<Visit<V>>, origs: seq<Stem<V>>, top: Visit<V>, o: Stem<V>, cur: nat,
                          pos: Chunk, idx: nat, t: Stem<V>)
    requires cur > 0 && top.position == pos
    requires Partial(top, o, |lower|, cur, CountBits(o.bitmap, pos)) && Pending(lower, origs, cur, top.idx, o)
    requires Bit(o.bitmap, pos) && idx == HypotheticalIndex(o.bitmap, pos) && idx < |top.stem.buffer|
    requires top.stem.buffer[idx] == EStem(t)
    ensures Pending(lower + [top.(position := pos + 1)], origs + [o], cur, idx, t)
  {
    CountNext(o.bitmap, pos);
    var lower', origs' := lower + [top.(position := pos + 1)], origs + [o];
    assert lower'[..|lower|] == lower && origs'[..|lower|] == origs;
  }

  /** A visit that has passed slot 31 holds the preserved copy. */
  lemma FinishVisit<V>(v: Visit<V>, o: Stem<V>, j: nat, cur: nat)
    requires cur > 0 && v.position >= 32 && Partial(v, o, j, cur, CountBits(o.bitmap, v.position))
    ensures v.stem == PreserveStem(o, cur)
  {
    PopCountIsCount(o.bitmap);
    assert v.stem.buffer == PreserveStem(o, cur).buffer;
  }

  /** Returning to the parent visit: the finished copy goes into the
      parent's entry, which is then done. */
  lemma PopPending<V>(lower: seq<Visit<V>>, origs: seq<Stem<V>>, top: Visit<V>, o: Stem<V>, cur: nat)
    requires cur > 0 && lower != [] && Pending(lower, origs, cur, top.idx, o) && top.stem == PreserveStem(o, cur)
    ensures top.idx < |lower[|lower| - 1].stem.buffer|
    ensures
      var n := |lower|;
      var parent := lower[n - 1];
      && Partial(Plug(parent, top.idx, top.stem), origs[n - 1], n - 1, cur, CountBits(origs[n - 1].bitmap, parent.position))
      && Pending(lower[..n - 1], origs[..n - 1], cur, parent.idx, origs[n - 1])
  {
  }
}
