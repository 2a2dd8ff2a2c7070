/** `HamtIterator` of rust/ares/src/hamt.rs:564-641: a depth-first walk that
    keeps, for each of up to six levels, the not yet visited part of a stem
    (its bitmap and typemap shifted past the children already taken, and the
    entries from the next one on), plus the unread part of the current
    leaf. */
module HamtIter {
  import opened Nouns
  import opened Bits32
  import opened Hamt

  // ---------------------------------------------------------------------
  // The stored pairs, in slot order.

  function EntriesPairs<V>(es: seq<Entry<V>>): seq<(Noun, V)>
    decreases es
  {
    if es == [] then [] else EntryPairs(es[0]) + EntriesPairs(es[1..])
  }

  /** The pairs below one entry; a leaf contributes its live pairs (its
      length never exceeds its buffer in a shaped map). */
  function EntryPairs<V>(e: Entry<V>): seq<(Noun, V)>
    decreases e
  {
    match e
    case EStem(t) => EntriesPairs(t.buffer)
    case ELeaf(l) => if l.len <= |l.buffer| then LivePairs(l) else []
  }

  /** Every pair stored in the map, in the order the iterator yields them. */
  function Pairs<V>(m: HamtMap<V>): seq<(Noun, V)>
  {
    EntriesPairs(m.root.buffer)
  }

  lemma PairsEmpty<V>()
    ensures Pairs(Empty<V>()) == []
  {
  }

  /** What a lookup finds is stored. */
  lemma {:induction false} LookupStored<V>(s: Stem<V>, d: nat, mug: Mug, k: Noun)
    requires Shaped(s, d)
    ensures LookupIn(s, d, mug, k).Some? ==> (k, LookupIn(s, d, mug, k).value) in EntriesPairs(s.buffer)
    decreases s
  {
    var c := ChunkAt(mug(k), d);
    var r := LookupIn(s, d, mug, k);
    match Child(s, d, c)
    case None =>
    case Some(e) =>
      var i := HypotheticalIndex(s.bitmap, c);
      EntryStored(s.buffer, i);
      match e
      case EStem(t) =>
        assert r == LookupIn(t, d + 1, mug, k);
        LookupStored(t, d + 1, mug, k);
        assert EntryPairs(e) == EntriesPairs(t.buffer);
      case ELeaf(l) =>
        assert r == FindValue(LivePairs(l), k);
        assert EntryPairs(e) == LivePairs(l);
        match FindKey(LivePairs(l), k)
        case None =>
        case Some(j) =>
          assert LivePairs(l)[j] == (k, r.value);
  }

  /** The pairs of each entry are among the pairs of the sequence. */
  lemma {:induction false} EntryStored<V>(es: seq<Entry<V>>, i: nat)
    requires i < |es|
    ensures forall p | p in EntryPairs(es[i]) :: p in EntriesPairs(es)
    decreases i
  {
    if i > 0 {
      EntryStored(es[1..], i - 1);
      assert es[1..][i - 1] == es[i];
    }
  }

  // ---------------------------------------------------------------------
  // The remaining part of one level.

  /** The set bits of `b`, lowest first, pair up with the entries `es`, and
      the bits of `t` at those positions say which entries are stems. */
  predicate Layout<V>(b: bv32, t: bv32, es: seq<Entry<V>>)
    decreases b
  {
    if b == 0 then es == []
    else
      ShiftSmaller(b);
      if b & 1 == 1 then
        es != [] && ((t & 1 == 1) <==> es[0].EStem?) && Layout(b >> 1, t >> 1, es[1..])
      else Layout(b >> 1, t >> 1, es)
  }

  /** A level as the iterator keeps it: laid out, and its entries shaped at
      the level's depth. */
  ghost predicate LevelOk<V>(b: bv32, t: bv32, es: seq<Entry<V>>, d: nat)
  {
    Layout(b, t, es) && forall j | 0 <= j < |es| :: EntryShaped(es[j], d)
  }

  /** A shaped stem is laid out: its dense buffer follows its bitmap. */
  lemma StemLayout<V>(s: Stem<V>, d: nat)
    requires Shaped(s, d)
    ensures LevelOk(s.bitmap, s.typemap, s.buffer, d)
  {
    forall c: Chunk | Bit(s.bitmap, c)
      ensures DenseAt(s.bitmap, s.typemap, s.buffer, c)
    {
      SlotShaped(s, d, c);
    }
    PopCountIsCount(s.bitmap);
    DenseLayout(s.bitmap, s.typemap, s.buffer);
  }

  /** Slot `c` is stored at its hypothetical index, with a tag that agrees
      with the typemap. */
  predicate DenseAt<V>(b: bv32, t: bv32, es: seq<Entry<V>>, c: Chunk)
  {
    HypotheticalIndex(b, c) < |es| && (Bit(t, c) <==> es[HypotheticalIndex(b, c)].EStem?)
  }

  /** Entries stored at the hypothetical indices of a bitmap are laid out. */
  lemma {:induction false} DenseLayout<V>(b: bv32, t: bv32, es: seq<Entry<V>>)
    requires |es| == CountBits(b, 32)
    requires forall c: Chunk | Bit(b, c) :: DenseAt(b, t, es, c)
    ensures Layout(b, t, es)
    decreases b
  {
    if b == 0 {
      CountZero(32);
    } else {
      ShiftSmaller(b);
      CountShift(b, 31);
      TopClearBit(b);
      LowBit(b);
      var es', b', t' := DenseRest(b, es), b >> 1, t >> 1;
      forall c: Chunk | Bit(b', c)
        ensures DenseAt(b', t', es', c)
      {
        DenseStep(b, t, es, c);
      }
      if b & 1 == 1 {
        DenseFirst(b, t, es);
      }
      DenseLayout(b >> 1, t >> 1, es');
    }
  }

  /** The entries after slot 0, when slot 0 is occupied. */
  function DenseRest<V>(b: bv32, es: seq<Entry<V>>): seq<Entry<V>>
  {
    if b & 1 == 1 && es != [] then es[1..] else es
  }

  lemma DenseFirst<V>(b: bv32, t: bv32, es: seq<Entry<V>>)
    requires b & 1 == 1 && DenseAt(b, t, es, 0)
    ensures es != [] && ((t & 1 == 1) <==> es[0].EStem?)
  {
    LowBit(b);
    LowBit(t);
  }

  lemma DenseStep<V>(b: bv32, t: bv32, es: seq<Entry<V>>, c: Chunk)
    requires forall c: Chunk | Bit(b, c) :: DenseAt(b, t, es, c)
    requires Bit(b >> 1, c)
    ensures DenseAt(b >> 1, t >> 1, DenseRest(b, es), c)
  {
    var c1 := UpOne(b, t, c);
    assert DenseAt(b, t, es, c1);
  }

  /** Bit `c` of `b >> 1` is bit `c + 1` of `b`, one further in the count. */
  lemma UpOne(b: bv32, t: bv32, c: Chunk) returns (c1: Chunk)
    requires Bit(b >> 1, c)
    ensures c1 as int == c as int + 1 && Bit(b, c1) && Bit(t >> 1, c) == Bit(t, c1)
    ensures HypotheticalIndex(b, c1) == (if b & 1 == 1 then 1 else 0) + HypotheticalIndex(b >> 1, c)
  {
    TopClearBit(b);
    ShiftBit(b, c);
    ShiftBit(t, c);
    CountShift(b, c);
    c1 := c + 1;
  }

  /** Taking the lowest remaining child: it is the first entry, the typemap
      bit at `trailing_zeros` gives its tag, and the level shifted past it is
      laid out with the remaining entries. */
  lemma {:induction false} LayoutTake<V>(b: bv32, t: bv32, es: seq<Entry<V>>)
    requires Layout(b, t, es) && b != 0
    ensures TrailingZeros(b) < 32 && es != []
    ensures Bit(t, TrailingZeros(b)) <==> es[0].EStem?
    ensures Layout(ShiftPast(b, TrailingZeros(b)), ShiftPast(t, TrailingZeros(b)), es[1..])
    decreases b
  {
    ShiftSmaller(b);
    if b & 1 == 1 {
      LowBit(t);
      ShiftPastZero(b);
      ShiftPastZero(t);
    } else {
      LowZero(b);
      LayoutTake(b >> 1, t >> 1, es);
      TakeShift(b, t);
    }
  }

  /** The shifts of one step of `LayoutTake`. */
  lemma TakeShift(b: bv32, t: bv32)
    requires b != 0 && b & 1 != 1 && TrailingZeros(b >> 1) < 32
    ensures TrailingZeros(b) == 1 + TrailingZeros(b >> 1) < 32
    ensures Bit(t, TrailingZeros(b)) == Bit(t >> 1, TrailingZeros(b >> 1))
    ensures ShiftPast(b, TrailingZeros(b)) == ShiftPast(b >> 1, TrailingZeros(b >> 1))
    ensures ShiftPast(t, TrailingZeros(b)) == ShiftPast(t >> 1, TrailingZeros(b >> 1))
  {
    LowZero(b);
    TrailingSet(b >> 1);
    TopClearBit(b);
    var r := TrailingZeros(b >> 1);
    assert r < 31;
    ShiftBit(t, r);
    ShiftPastSucc(b, r + 1);
    ShiftPastSucc(t, r + 1);
  }

  /** A level past its lowest child keeps its entries shaped. */
  lemma LevelTake<V>(b: bv32, t: bv32, es: seq<Entry<V>>, d: nat)
    requires LevelOk(b, t, es, d) && b != 0
    ensures TrailingZeros(b) < 32 && es != [] && EntryShaped(es[0], d)
    ensures Bit(t, TrailingZeros(b)) <==> es[0].EStem?
    ensures LevelOk(ShiftPast(b, TrailingZeros(b)), ShiftPast(t, TrailingZeros(b)), es[1..], d)
  {
    LayoutTake(b, t, es);
    assert forall j | 0 <= j < |es[1..]| :: es[1..][j] == es[j + 1];
  }

  /** The entries of node count zero: an empty level. */
  function EntriesNodes<V>(es: seq<Entry<V>>): nat
    decreases es
  {
    if es == [] then 0 else 1 + EntryNodes(es[0]) + EntriesNodes(es[1..])
  }

  function EntryNodes<V>(e: Entry<V>): nat
    decreases e
  {
    match e
    case EStem(t) => EntriesNodes(t.buffer)
    case ELeaf(_) => 0
  }

  // ---------------------------------------------------------------------
  // All levels.

  /** The pairs still to come from levels `d` down to 0. */
  function Levels<V>(bufs: seq<seq<Entry<V>>>, d: nat): seq<(Noun, V)>
    requires d < |bufs|
  {
    EntriesPairs(bufs[d]) + (if d == 0 then [] else Levels(bufs, d - 1))
  }

  function LevelNodes<V>(bufs: seq<seq<Entry<V>>>, d: nat): nat
    requires d < |bufs|
  {
    EntriesNodes(bufs[d]) + (if d == 0 then 0 else LevelNodes(bufs, d - 1))
  }

  lemma {:induction false} LevelsAgree<V>(a: seq<seq<Entry<V>>>, b: seq<seq<Entry<V>>>, d: nat)
    requires d < |a| && d < |b| && forall i | 0 <= i <= d :: a[i] == b[i]
    ensures Levels(a, d) == Levels(b, d) && LevelNodes(a, d) == LevelNodes(b, d)
  {
    if d > 0 {
      LevelsAgree(a, b, d - 1);
    }
  }

  /** Levels `d` down to 0 are each laid out and shaped at their depth. */
  ghost predicate LevelsOk<V>(bms: seq<bv32>, tms: seq<bv32>, bufs: seq<seq<Entry<V>>>, d: nat)
    requires d < |bms| && d < |tms| && d < |bufs|
  {
    forall i | 0 <= i <= d :: LevelOk(bms[i], tms[i], bufs[i], i)
  }

  /** Replacing level `d` by a good level keeps the levels good. */
  lemma LevelsOkSet<V>(bms: seq<bv32>, tms: seq<bv32>, bufs: seq<seq<Entry<V>>>, d: nat,
                       b: bv32, t: bv32, es: seq<Entry<V>>)
    requires d < |bms| && d < |tms| && d < |bufs|
    requires d == 0 || LevelsOk(bms, tms, bufs, d - 1)
    requires LevelOk(b, t, es, d)
    ensures LevelsOk(bms[d := b], tms[d := t], bufs[d := es], d)
  {
  }

  // ---------------------------------------------------------------------
  // The iterator.

  class HamtIterator<V> {
    /** For each level, the entries from the next child on (the source's
        advancing `buffers[d]` pointer). */
    const buffers: array<seq<Entry<V>>>
    const bitmaps: array<bv32>
    const typemaps: array<bv32>
    /** The unread pairs of the current leaf, `leaf_buffer` and `leaf_len`. */
    var leafBuffer: seq<(Noun, V)>
    var leafLen: nat
    var depth: nat

    ghost predicate Valid()
      reads this, buffers, bitmaps, typemaps
    {
      && buffers.Length == 6 && bitmaps.Length == 6 && typemaps.Length == 6
      && bitmaps != typemaps && buffers as object != bitmaps && buffers as object != typemaps
      && depth < 6 && leafLen <= |leafBuffer|
      && LevelsOk(bitmaps[..], typemaps[..], buffers[..], depth)
    }

    /** The pairs still to be yielded. */
    ghost function Remaining(): seq<(Noun, V)>
      reads this, buffers
      requires depth < buffers.Length && leafLen <= |leafBuffer|
    {
      leafBuffer[..leafLen] + Levels(buffers[..], depth)
    }

    ghost function Nodes(): nat
      reads this, buffers
      requires depth < buffers.Length
    {
      LevelNodes(buffers[..], depth)
    }

    /** `Hamt::into_iter`: level 0 is the root, nothing else is set. */
    constructor (m: HamtMap<V>)
      requires Shaped(m.root, 0)
      ensures Valid() && Remaining() == Pairs(m)
    {
      buffers := new seq<Entry<V>>[6](_ => []);
      bitmaps := new bv32[6](_ => 0);
      typemaps := new bv32[6](_ => 0);
      leafBuffer := [];
      leafLen := 0;
      depth := 0;
      new;
      buffers[0] := m.root.buffer;
      bitmaps[0] := m.root.bitmap;
      typemaps[0] := m.root.typemap;
      StemLayout(m.root, 0);
    }

    /** `HamtIterator::next`, with the inner loop ending after each child it
        takes and the bitmap shifted in two steps (see the findings): yields
        the first remaining pair, or nothing once all are yielded. */
    method Next() returns (r: Option<(Noun, V)>)
      requires Valid()
      modifies this, buffers, bitmaps, typemaps
      ensures Valid()
      ensures old(Remaining()) == [] ==> r == None && Remaining() == []
      ensures old(Remaining()) != [] ==> r == Some(old(Remaining())[0]) && Remaining() == old(Remaining())[1..]
    {
      ghost var rem := Remaining();
      while true
        invariant Valid() && Remaining() == rem
        decreases Nodes(), leafLen == 0
      {
        if leafLen > 0 {
          r := Some(leafBuffer[0]);
          assert leafBuffer[..leafLen] == [leafBuffer[0]] + leafBuffer[1..][..leafLen - 1];
          leafLen := leafLen - 1;
          leafBuffer := leafBuffer[1..];
          return;
        }
        assert leafBuffer[..leafLen] == [];
        // seek up to a level with children left
        ghost var nodes := Nodes();
        while bitmaps[depth] == 0
          invariant Valid() && Remaining() == rem && leafLen == 0
          invariant Nodes() == nodes
          decreases depth
        {
          assert buffers[depth] == [];
          if depth == 0 {
            return None;
          }
          depth := depth - 1;
        }
        TakeChild();
      }
    }

    /** The inner loop of `next`, once: take the lowest remaining child of
        the current level, descending into a stem or entering a leaf. */
    method TakeChild()
      requires Valid() && leafLen == 0 && bitmaps[depth] != 0
      modifies this, buffers, bitmaps, typemaps
      ensures Valid() && Remaining() == old(Remaining())
      ensures Nodes() < old(Nodes()) || (Nodes() == old(Nodes()) && leafLen > 0)
    {
      var d := depth;
      ghost var bufs := buffers[..];
      var e, isStem := PopChild();
      if isStem {
        var next := e.stem;
        StemLayout(next, d + 1);
        ghost var bms, tms, bfs := bitmaps[..], typemaps[..], buffers[..];
        LevelsOkSet(bms, tms, bfs, d + 1, next.bitmap, next.typemap, next.buffer);
        depth := d + 1;
        bitmaps[depth] := next.bitmap;
        typemaps[depth] := next.typemap;
        buffers[depth] := next.buffer;
        assert bitmaps[..] == bms[depth := next.bitmap];
        assert typemaps[..] == tms[depth := next.typemap];
        assert buffers[..] == bfs[depth := next.buffer];
        TakeStemLevels(bufs, buffers[..], d, next);
      } else {
        leafBuffer := e.leaf.buffer;
        leafLen := e.leaf.len;
        TakeLeafLevels(bufs, buffers[..], d, e.leaf);
      }
    }

    /** Removes the lowest remaining child `e` of the current level, shifting
        the bitmap and typemap past it; `isStem` is its typemap bit. */
    method PopChild() returns (e: Entry<V>, isStem: bool)
      requires Valid() && bitmaps[depth] != 0
      modifies buffers, bitmaps, typemaps
      ensures Valid()
      ensures isStem <==> e.EStem?
      ensures EntryShaped(e, depth)
      ensures old(buffers[depth]) != [] && e == old(buffers[depth])[0]
      ensures buffers[..] == old(buffers[..])[depth := old(buffers[depth])[1..]]
    {
      var d := depth;
      var b, t := bitmaps[d], typemaps[d];
      var es := buffers[d];
      LevelTake(b, t, es, d);
      var tz: Chunk := TrailingZeros(b);
      e := es[0];
      HasIndexBit(t, tz);
      isStem := HasIndex(t, tz);
      ghost var bms, tms, bfs := bitmaps[..], typemaps[..], buffers[..];
      LevelsOkSet(bms, tms, bfs, d, ShiftPast(b, tz), ShiftPast(t, tz), es[1..]);
      bitmaps[d] := ShiftPast(b, tz);
      typemaps[d] := ShiftPast(t, tz);
      buffers[d] := es[1..];
      assert bitmaps[..] == bms[d := ShiftPast(b, tz)];
      assert typemaps[..] == tms[d := ShiftPast(t, tz)];
      assert buffers[..] == bfs[d := es[1..]];
    }
  }

  lemma AppendAssoc<T>(x: seq<T>, y: seq<T>, z: seq<T>)
    ensures x + (y + z) == (x + y) + z
  {
  }

  lemma TakeStemLevels<V>(old_: seq<seq<Entry<V>>>, new_: seq<seq<Entry<V>>>, d: nat, t: Stem<V>)
    requires d + 1 < |old_| && |new_| == |old_| && old_[d] != [] && old_[d][0] == EStem(t)
    requires new_[d] == old_[d][1..] && new_[d + 1] == t.buffer
    requires forall i | 0 <= i < d :: new_[i] == old_[i]
    ensures Levels(new_, d + 1) == Levels(old_, d)
    ensures LevelNodes(new_, d + 1) < LevelNodes(old_, d)
  {
    var es := old_[d];
    var x, y := EntriesPairs(t.buffer), EntriesPairs(es[1..]);
    assert EntriesPairs(es) == x + y;
    var rest := if d == 0 then [] else Levels(old_, d - 1);
    if d > 0 {
      LevelsAgree(old_, new_, d - 1);
    }
    assert Levels(new_, d) == y + rest;
    AppendAssoc(x, y, rest);
    TakeStemNodes(old_, new_, d, t);
  }

  lemma TakeStemNodes<V>(old_: seq<seq<Entry<V>>>, new_: seq<seq<Entry<V>>>, d: nat, t: Stem<V>)
    requires d + 1 < |old_| && |new_| == |old_| && old_[d] != [] && old_[d][0] == EStem(t)
    requires new_[d] == old_[d][1..] && new_[d + 1] == t.buffer
    requires forall i | 0 <= i < d :: new_[i] == old_[i]
    ensures LevelNodes(new_, d + 1) < LevelNodes(old_, d)
  {
    var es := old_[d];
    assert EntriesNodes(es) == 1 + EntriesNodes(t.buffer) + EntriesNodes(es[1..]);
    if d > 0 {
      LevelsAgree(old_, new_, d - 1);
    }
  }

  lemma TakeLeafLevels<V>(old_: seq<seq<Entry<V>>>, new_: seq<seq<Entry<V>>>, d: nat, l: Leaf<V>)
    requires d < |old_| && |new_| == |old_| && old_[d] != [] && old_[d][0] == ELeaf(l) && l.len <= |l.buffer|
    requires new_[d] == old_[d][1..]
    requires forall i | 0 <= i < d :: new_[i] == old_[i]
    ensures LivePairs(l) + Levels(new_, d) == Levels(old_, d)
    ensures LevelNodes(new_, d) < LevelNodes(old_, d)
  {
    var es := old_[d];
    var x, y := LivePairs(l), EntriesPairs(es[1..]);
    assert EntriesPairs(es) == x + y;
    var rest := if d == 0 then [] else Levels(old_, d - 1);
    if d > 0 {
      LevelsAgree(old_, new_, d - 1);
    }
    assert Levels(new_, d) == y + rest;
    AppendAssoc(x, y, rest);
  }

  // ---------------------------------------------------------------------
  // `next` as written, on the iterator's fields as values.

  datatype IterState<V> = IterState(
    buffers: seq<seq<Entry<V>>>, bitmaps: seq<bv32>, typemaps: seq<bv32>,
    leafBuffer: seq<(Noun, V)>, leafLen: nat, depth: nat)

  /** How a call of `next` as written ends. `ShiftOverflow` is a shift by 32
      or more (a panic in a debug build), `BadRead` reads past the entries or
      through the wrong union field, and `OutOfFuel` stops the inner loop
      after `fuel` rounds. */
  datatype Outcome<V> = Yield(pair: (Noun, V), after: IterState<V>) | Exhausted | ShiftOverflow | BadRead | OutOfFuel

  ghost predicate StateFits<V>(st: IterState<V>)
  {
    |st.buffers| == 6 && |st.bitmaps| == 6 && |st.typemaps| == 6 && st.depth < 6 && st.leafLen <= |st.leafBuffer|
  }

  /** `into_iter` on values. */
  function IntoIterState<V>(m: HamtMap<V>): (st: IterState<V>)
    ensures StateFits(st)
  {
    IterState([m.root.buffer, [], [], [], [], []], [m.root.bitmap, 0, 0, 0, 0, 0],
              [m.root.typemap, 0, 0, 0, 0, 0], [], 0, 0)
  }

  function NextAsWritten<V>(st: IterState<V>, fuel: nat): Outcome<V>
    requires StateFits(st)
  {
    if st.leafLen > 0 then
      Yield(st.leafBuffer[0], st.(leafLen := st.leafLen - 1, leafBuffer := st.leafBuffer[1..]))
    else SeekAsWritten(st, fuel)
  }

  /** The seek-up loop. */
  function SeekAsWritten<V>(st: IterState<V>, fuel: nat): Outcome<V>
    requires StateFits(st)
    decreases st.depth
  {
    if st.bitmaps[st.depth] != 0 then InnerAsWritten(st, fuel)
    else if st.depth == 0 then Exhausted
    else SeekAsWritten(st.(depth := st.depth - 1), fuel)
  }

  /** The inner loop as written: it takes children over and over and has no
      exit but a fault. */
  function InnerAsWritten<V>(st: IterState<V>, fuel: nat): Outcome<V>
    requires StateFits(st)
    decreases fuel
  {
    if fuel == 0 then OutOfFuel
    else
      var tz := TrailingZeros(st.bitmaps[st.depth]);
      // 32 overflows `1 << next_child_bit`, 31 overflows `>> next_child_bit + 1`
      if tz >= 31 then ShiftOverflow
      else
        match TakeAsWritten(st, tz)
        case None => BadRead
        case Some(st') => InnerAsWritten(st', fuel - 1)
  }

  /** One round of the inner loop as written, taking child `tz`: `None` when
      it reads past the entries or through the wrong union field. */
  function TakeAsWritten<V>(st: IterState<V>, tz: bv32): (r: Option<IterState<V>>)
    requires StateFits(st) && tz < 31
    ensures r.Some? ==> StateFits(r.value)
  {
    var d := st.depth;
    var b, t, es := st.bitmaps[d], st.typemaps[d], st.buffers[d];
    if es == [] then None
    else
      var rest := st.(bitmaps := st.bitmaps[d := b >> (tz + 1)], typemaps := st.typemaps[d := t >> (tz + 1)],
                      buffers := st.buffers[d := es[1..]]);
      if t & (1 << tz) != 0 then
        if !es[0].EStem? || d == 5 then None
        else
          var next := es[0].stem;
          Some(rest.(depth := d + 1, bitmaps := rest.bitmaps[d + 1 := next.bitmap],
                     typemaps := rest.typemaps[d + 1 := next.typemap],
                     buffers := rest.buffers[d + 1 := next.buffer]))
      else if !es[0].ELeaf? || es[0].leaf.len > |es[0].leaf.buffer| then None
      else Some(rest.(leafBuffer := es[0].leaf.buffer, leafLen := es[0].leaf.len))
  }

  /** Once the current leaf is used up, `next` as written yields nothing
      more: it ends the walk or faults. */
  lemma {:induction false} InnerNeverYields<V>(st: IterState<V>, fuel: nat)
    requires StateFits(st)
    ensures !InnerAsWritten(st, fuel).Yield?
    decreases fuel
  {
    if fuel > 0 {
      var tz := TrailingZeros(st.bitmaps[st.depth]);
      if tz < 31 && TakeAsWritten(st, tz).Some? {
        InnerNeverYields(TakeAsWritten(st, tz).value, fuel - 1);
      }
    }
  }

  lemma {:induction false} SeekNeverYields<V>(st: IterState<V>, fuel: nat)
    requires StateFits(st)
    ensures !SeekAsWritten(st, fuel).Yield?
    decreases st.depth
  {
    if st.bitmaps[st.depth] != 0 {
      InnerNeverYields(st, fuel);
    } else if st.depth > 0 {
      SeekNeverYields(st.(depth := st.depth - 1), fuel);
    }
  }

  /** A fresh iterator over any map never yields a pair. */
  lemma AsWrittenYieldsNothing<V>(m: HamtMap<V>, fuel: nat)
    ensures !NextAsWritten(IntoIterState(m), fuel).Yield?
  {
    SeekNeverYields(IntoIterState(m), fuel);
  }

  /** The map holding key 0 under mug 0: one leaf in slot 0 of the root. */
  function OneKey(): HamtMap<nat>
  {
    HamtMap(Stem(1, 0, 1, [ELeaf(Leaf(1, 1, [(Atom(0), 10)]))]))
  }

  /** It is what the insert builds, it stores its pair, and `next` as
      written overflows on it instead of yielding the pair. */
  lemma OneKeyOverflows()
    ensures Insert(Empty<nat>(), (n: Noun) => 0, Atom(0), 10, 1) == OneKey()
    ensures Pairs(OneKey()) == [(Atom(0), 10)]
    ensures NextAsWritten(IntoIterState(OneKey()), 2) == ShiftOverflow
  {
  }

  /** The map holding key 0 under mug 31: one leaf in slot 31 of the root. */
  function TopKey(): HamtMap<nat>
  {
    HamtMap(Stem(0x8000_0000, 0, 1, [ELeaf(Leaf(1, 1, [(Atom(0), 10)]))]))
  }

  /** Its only child sits in slot 31, where `>> next_child_bit + 1` shifts by
      32; shifting in two steps leaves an empty bitmap. */
  lemma TopKeyOverflows()
    ensures Insert(Empty<nat>(), (n: Noun) => 31, Atom(0), 10, 1) == TopKey()
    ensures TrailingZeros(TopKey().root.bitmap) == 31
    ensures InnerAsWritten(IntoIterState(TopKey()), 1) == ShiftOverflow
    ensures ShiftPast(TopKey().root.bitmap, 31) == 0
  {
    CountZero(31);
    MugBitsZero(31);
    TrailingPow(31);
  }

  /** The trailing-zero count of a single bit is its position. */
  lemma {:induction false} TrailingPow(k: Chunk)
    ensures TrailingZeros(ChunkToBit(k)) == k
    decreases k
  {
    if k > 0 {
      assert ChunkToBit(k) >> 1 == ChunkToBit(k - 1);
      TrailingPow(k - 1);
    }
  }
}

