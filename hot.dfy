/** The hot jet-dispatch table (`rust/ares/src/jets/hot.rs`): a HAMT from
    the noun encoding of a jet's path to a chain of registrations, each
    naming the axis of the jetted formula in its battery and the jet.
    Chain nodes (`HotMem`) are never written again once allocated, so a
    pointer to one (`HotMemEntry`) is modelled by the node's value. Jets
    are values of an arbitrary type `J`. */
module HotJets {
  import opened Nouns
  import opened Hamt
  import opened HamtFacts
  import opened HamtPreserve

  newtype Byte = b: int | 0 <= b < 256

  /** A Rust `u64`. */
  newtype Word = w: int | 0 <= w < 0x1_0000_0000_0000_0000

  /** One element of a path in the table: a name given by its bytes, or a
      name and version given as two words. */
  datatype PathElem = Name(bytes: seq<Byte>) | Versioned(tas: Word, ver: Word)

  /** A row of the table: the path, the axis of the formula, the jet. */
  datatype HotEntry<J> = HotEntry(path: seq<PathElem>, axe: Word, jet: J)

  /** A chain of registrations, newest first; `Null` ends it. */
  datatype HotMemEntry<J> = Null | Entry(mem: HotMem<J>)
  datatype HotMem<J> = HotMem(axis: nat, jet: J, next: HotMemEntry<J>)

  datatype Hot<J> = Hot(table: HamtMap<HotMemEntry<J>>)

  // ---------------------------------------------------------------------
  // Paths.

  /** The atom whose little-endian bytes are `bs` (trailing zero bytes
      do not change it: the atom is normalized). */
  function BytesValue(bs: seq<Byte>): nat
  {
    if bs == [] then 0 else bs[0] as nat + 256 * BytesValue(bs[1..])
  }

  /** `DirectAtom::new_panic` accepts only words that fit a direct atom. */
  predicate ElemOk(e: PathElem)
  {
    e.Versioned? ==> e.tas as nat <= DIRECT_MAX && e.ver as nat <= DIRECT_MAX
  }

  predicate PathOk(path: seq<PathElem>)
  {
    forall i | 0 <= i < |path| :: ElemOk(path[i])
  }

  /** The noun of one path element: an atom, or the cell [tas ver]. */
  function ElemNoun(e: PathElem): (r: Noun)
    requires ElemOk(e)
    ensures r.Atom? <==> e.Name?
  {
    match e
    case Name(bs) => Atom(BytesValue(bs))
    case Versioned(tas, ver) => Cell(Atom(tas as nat), Atom(ver as nat))
  }

  /** The element nouns in path order. */
  function ElemNouns(path: seq<PathElem>): (r: seq<Noun>)
    requires PathOk(path)
    ensures |r| == |path| && forall i | 0 <= i < |path| :: r[i] == ElemNoun(path[i])
  {
    if path == [] then [] else
      var front := path[..|path| - 1];
      assert PathOk(front) by {
        forall i | 0 <= i < |front| ensures ElemOk(front[i]) {
          assert front[i] == path[i];
        }
      }
      ElemNouns(path[..|path| - 1]) + [ElemNoun(path[|path| - 1])]
  }

  function Reverse<T>(s: seq<T>): (r: seq<T>)
    ensures |r| == |s|
  {
    if s == [] then [] else [s[|s| - 1]] + Reverse(s[..|s| - 1])
  }

  /** The encoded path: the element nouns as a null-terminated list, the
      last element first. */
  function PathNoun(path: seq<PathElem>): (r: Noun)
    requires PathOk(path)
    ensures ListToSeq(r) == Some(Reverse(ElemNouns(path)))
  {
    ListRoundTrip(Reverse(ElemNouns(path)));
    SeqToList(Reverse(ElemNouns(path)))
  }

  /** Consing one more element onto an encoded path encodes the longer path. */
  lemma PathNounSnoc(path: seq<PathElem>, e: PathElem)
    requires PathOk(path) && ElemOk(e)
    ensures PathOk(path + [e])
    ensures PathNoun(path + [e]) == Cell(ElemNoun(e), PathNoun(path))
  {
    var p := path + [e];
    assert p[..|p| - 1] == path;
    assert ElemNouns(p) == ElemNouns(path) + [ElemNoun(e)];
    var rev := Reverse(ElemNouns(p));
    assert rev == [ElemNoun(e)] + Reverse(ElemNouns(path));
    assert rev[1..] == Reverse(ElemNouns(path));
  }

  /** The inner loop of `Hot::init`: cons each element, in order, onto 0;
      an element that does not fit a direct atom panics. */
  method EncodePath(path: seq<PathElem>) returns (r: Option<Noun>)
    ensures r.Some? <==> PathOk(path)
    ensures r.Some? ==> r.value == PathNoun(path)
  {
    var aPath := Atom(0);
    var i := 0;
    while i < |path|
      invariant 0 <= i <= |path| && PathOk(path[..i])
      invariant aPath == PathNoun(path[..i])
    {
      var e := path[i];
      if !ElemOk(e) {
        return None;
      }
      PathNounSnoc(path[..i], e);
      assert path[..i + 1] == path[..i] + [e];
      aPath := Cell(ElemNoun(e), aPath);
      i := i + 1;
    }
    assert path[..i] == path;
    return Some(aPath);
  }

  // ---------------------------------------------------------------------
  // The table a hot state registers.

  predicate EntryOk<J>(e: HotEntry<J>)
  {
    PathOk(e.path) && e.axe as nat <= DIRECT_MAX
  }

  predicate TableOk<J>(table: seq<HotEntry<J>>)
  {
    forall i | 0 <= i < |table| :: EntryOk(table[i])
  }

  lemma TablePrefix<J>(table: seq<HotEntry<J>>, n: nat)
    requires TableOk(table) && n <= |table|
    ensures TableOk(table[..n])
  {
    forall i | 0 <= i < n ensures EntryOk(table[..n][i]) {
      assert table[..n][i] == table[i];
    }
  }

  /** `unwrap_or(HotMemEntry(null_mut()))`. */
  function OrNull<J>(e: Option<HotMemEntry<J>>): HotMemEntry<J>
  {
    if e.Some? then e.value else Null
  }

  /** What the map holds under the path noun `p` after registering
      `table` in order: a new node for each row with that path, pointing
      at the chain registered before it. */
  function Registered<J>(table: seq<HotEntry<J>>, p: Noun): Option<HotMemEntry<J>>
    requires TableOk(table)
  {
    if table == [] then None else
      TablePrefix(table, |table| - 1);
      var e := table[|table| - 1];
      var before := Registered(table[..|table| - 1], p);
      if PathNoun(e.path) == p then Some(Entry(HotMem(e.axe as nat, e.jet, OrNull(before)))) else before
  }

  /** The registrations under a path, newest first, as (axis, jet) pairs. */
  function Pairs<J>(e: HotMemEntry<J>): seq<(nat, J)>
  {
    match e
    case Null => []
    case Entry(m) => [(m.axis, m.jet)] + Pairs(m.next)
  }

  /** The jet of the first node of the chain with the given axis. */
  function FirstJet<J>(e: HotMemEntry<J>, axis: nat): Option<J>
  {
    match e
    case Null => None
    case Entry(m) => if m.axis == axis then Some(m.jet) else FirstJet(m.next, axis)
  }

  /** `FirstJet` finds the earliest pair of the chain with that axis, and
      nothing exactly when no pair has it. */
  lemma {:induction false} FirstJetFirst<J>(e: HotMemEntry<J>, axis: nat)
    ensures FirstJet(e, axis).None? <==> forall i | 0 <= i < |Pairs(e)| :: Pairs(e)[i].0 != axis
    ensures FirstJet(e, axis).Some? ==>
      exists i | 0 <= i < |Pairs(e)| :: Pairs(e)[i] == (axis, FirstJet(e, axis).value)
        && forall k | 0 <= k < i :: Pairs(e)[k].0 != axis
  {
    match e
    case Null =>
    case Entry(m) =>
      var ps, rest := Pairs(e), Pairs(m.next);
      assert ps == [(m.axis, m.jet)] + rest;
      if m.axis == axis {
        assert ps[0] == (axis, m.jet);
        assert FirstJet(e, axis) == Some(m.jet);
        assert Pairs(e)[0].0 == axis;
        assert 0 < |Pairs(e)|;
      } else {
        FirstJetFirst(m.next, axis);
        forall i | 0 <= i < |rest| ensures ps[i + 1] == rest[i] { }
        if FirstJet(m.next, axis).Some? {
          var i :| 0 <= i < |rest| && rest[i] == (axis, FirstJet(m.next, axis).value)
            && forall k | 0 <= k < i :: rest[k].0 != axis;
          assert ps[i + 1] == rest[i];
          forall k | 0 <= k < i + 1 ensures ps[k].0 != axis {
            if k == 0 { assert ps[0] == (m.axis, m.jet); } else { assert ps[k] == rest[k - 1]; }
          }
        } else {
          assert forall j | 0 <= j < |Pairs(m.next)| :: Pairs(m.next)[j].0 != axis;
          forall i | 0 <= i < |ps| ensures ps[i].0 != axis {
            if i == 0 { assert ps[0] == (m.axis, m.jet); } else { assert ps[i] == rest[i - 1]; }
          }
        }
      }
  }

  /** What `Hot::lookup` finds for an optional chain. */
  function Find<J>(e: Option<HotMemEntry<J>>, axis: nat): Option<J>
  {
    if e.Some? then FirstJet(e.value, axis) else None
  }

  predicate Matches<J>(e: HotEntry<J>, p: Noun, axis: nat)
    requires EntryOk(e)
  {
    PathNoun(e.path) == p && e.axe as nat == axis
  }

  /** The last row of the table with a given path and axis wins. */
  lemma {:induction false} LastEntryWins<J>(table: seq<HotEntry<J>>, p: Noun, axis: nat, i: nat)
    requires TableOk(table) && i < |table| && Matches(table[i], p, axis)
    requires forall j | i < j < |table| :: !Matches(table[j], p, axis)
    ensures Find(Registered(table, p), axis) == Some(table[i].jet)
  {
    var n := |table| - 1;
    if i < n {
      TablePrefix(table, n);
      var before := table[..n];
      forall j | i < j < |before| ensures !Matches(before[j], p, axis) {
        assert before[j] == table[j];
      }
      assert before[i] == table[i];
      LastEntryWins(before, p, axis, i);
      FindOrNull(Registered(before, p), axis);
    }
  }

  /** With no row of that path and axis, nothing is found. */
  lemma {:induction false} NoEntryNone<J>(table: seq<HotEntry<J>>, p: Noun, axis: nat)
    requires TableOk(table)
    requires forall j | 0 <= j < |table| :: !Matches(table[j], p, axis)
    ensures Find(Registered(table, p), axis) == None
  {
    if table != [] {
      var n := |table| - 1;
      TablePrefix(table, n);
      var before := table[..n];
      forall j | 0 <= j < |before| ensures !Matches(before[j], p, axis) {
        assert before[j] == table[j];
      }
      NoEntryNone(before, p, axis);
      FindOrNull(Registered(before, p), axis);
    }
  }

  lemma FindOrNull<J>(e: Option<HotMemEntry<J>>, axis: nat)
    ensures FirstJet(OrNull(e), axis) == Find(e, axis)
  {
  }

  /** Every node of a registered chain is one of the table's rows with that
      path, and they come newest first. */
  lemma {:induction false} RegisteredRows<J>(table: seq<HotEntry<J>>, p: Noun)
    requires TableOk(table)
    ensures Pairs(OrNull(Registered(table, p))) == Reverse(RowsUnder(table, p))
  {
    if table != [] {
      var n := |table| - 1;
      TablePrefix(table, n);
      RegisteredRows(table[..n], p);
      var e := table[n];
      if PathNoun(e.path) == p {
        var before := OrNull(Registered(table[..n], p));
        assert Registered(table, p) == Some(Entry(HotMem(e.axe as nat, e.jet, before)));
        assert Pairs(OrNull(Registered(table, p))) == [(e.axe as nat, e.jet)] + Pairs(before);
        assert RowsUnder(table, p) == RowsUnder(table[..n], p) + [(e.axe as nat, e.jet)];
        ReverseSnoc(RowsUnder(table[..n], p), (e.axe as nat, e.jet));
      } else {
        assert Registered(table, p) == Registered(table[..n], p);
        assert RowsUnder(table, p) == RowsUnder(table[..n], p) + [] == RowsUnder(table[..n], p);
      }
    }
  }

  lemma ReverseSnoc<T>(s: seq<T>, x: T)
    ensures Reverse(s + [x]) == [x] + Reverse(s)
  {
    assert (s + [x])[..|s|] == s;
  }

  /** The (axis, jet) of the rows with path noun `p`, in table order. */
  function RowsUnder<J>(table: seq<HotEntry<J>>, p: Noun): seq<(nat, J)>
    requires TableOk(table)
  {
    if table == [] then [] else
      TablePrefix(table, |table| - 1);
      var e := table[|table| - 1];
      RowsUnder(table[..|table| - 1], p) + (if PathNoun(e.path) == p then [(e.axe as nat, e.jet)] else [])
  }

  // ---------------------------------------------------------------------
  // Init.

  /** `Hot::init`: in a frame pushed above `outer`, register every row of
      the table in order, then preserve the map into `outer` and pop. A
      path element or axis that does not fit a direct atom panics. */
  method Init<J>(mug: Mug, table: seq<HotEntry<J>>, outer: nat) returns (r: Option<Hot<J>>)
    ensures r.Some? <==> TableOk(table)
    ensures r.Some? ==> Shaped(r.value.table.root, 0)
    ensures r.Some? ==> forall p :: Hamt.Lookup(r.value.table, mug, p) == Registered(table, p)
    ensures r.Some? ==> Nested(r.value.table.root, outer)
  {
    var cur := outer + 1;
    var hamt: HamtMap<HotMemEntry<J>> := Empty();
    forall p ensures Hamt.Lookup(hamt, mug, p) == Registered(table[..0], p) {
      LookupEmpty<HotMemEntry<J>>(mug, p);
    }
    var i := 0;
    while i < |table|
      invariant 0 <= i <= |table| && TableOk(table[..i])
      invariant Shaped(hamt.root, 0) && Nested(hamt.root, cur)
      invariant forall p :: Hamt.Lookup(hamt, mug, p) == Registered(table[..i], p)
    {
      var e := table[i];
      var aPath := EncodePath(e.path);
      if aPath.None? || e.axe as nat > DIRECT_MAX {
        assert !EntryOk(table[i]);
        return None;
      }
      var current := OrNull(Hamt.Lookup(hamt, mug, aPath.value));
      var old_hamt := hamt;
      hamt := Insert(hamt, mug, aPath.value, Entry(HotMem(e.axe as nat, e.jet, current)), cur);
      InsertNested(old_hamt.root, 0, mug, aPath.value, Entry(HotMem(e.axe as nat, e.jet, current)), cur, false);
      assert table[..i + 1][..i] == table[..i];
      var done := table[..i + 1];
      assert TableOk(done) by {
        forall j | 0 <= j < |done| ensures EntryOk(done[j]) {
          if j < i { assert done[j] == table[..i][j]; }
        }
      }
      forall p ensures Hamt.Lookup(hamt, mug, p) == Registered(table[..i + 1], p) {
        LookupInsert(old_hamt, mug, aPath.value, Entry(HotMem(e.axe as nat, e.jet, current)), cur, p);
      }
      i := i + 1;
    }
    assert table[..i] == table;
    var kept := Preserve(hamt, cur);
    PreserveShaped(hamt.root, 0, cur);
    forall p ensures Hamt.Lookup(kept, mug, p) == Hamt.Lookup(hamt, mug, p) {
      PreserveLookup(hamt.root, 0, mug, p, cur);
    }
    PreserveEvacuates(hamt.root, cur);
    return Some(Hot(kept));
  }

  // ---------------------------------------------------------------------
  // Lookup.

  /** `HotMemEntry` as an iterator: each step yields the node's (axis, jet)
      and overwrites the entry with the node's `next`. */
  class ChainIter<J> {
    var entry: HotMemEntry<J>

    constructor (e: HotMemEntry<J>)
      ensures entry == e
    {
      entry := e;
    }

    method Next() returns (r: Option<(nat, J)>)
      modifies this
      ensures old(entry).Null? ==> r == None && entry == Null
      ensures old(entry).Entry? ==> r == Some((old(entry).mem.axis, old(entry).mem.jet)) && entry == old(entry).mem.next
      ensures Pairs(old(entry)) == (if r.Some? then [r.value] else []) + Pairs(entry)
    {
      if entry.Null? {
        return None;
      }
      r := Some((entry.mem.axis, entry.mem.jet));
      entry := entry.mem.next;
    }
  }

  /** `Hot::lookup`: the chain under the path, then the jet of its first
      node with an equal axis. */
  method Lookup<J>(h: Hot<J>, mug: Mug, path: Noun, axis: nat) returns (r: Option<J>)
    requires Shaped(h.table.root, 0)
    ensures r == Find(Hamt.Lookup(h.table, mug, path), axis)
  {
    var he := Hamt.Lookup(h.table, mug, path);
    if he.None? {
      return None;
    }
    var it := new ChainIter(he.value);
    while true
      invariant FirstJet(it.entry, axis) == FirstJet(he.value, axis)
      decreases it.entry
    {
      var x := it.Next();
      if x.None? {
        return None;
      }
      if x.value.0 == axis {
        return Some(x.value.1);
      }
    }
  }
}
