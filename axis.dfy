/** Tree addressing (Nock's `/` and `#`): the fetch of a subtree by axis and
    the copy-on-write replacement of a subtree, as `slot` and `edit` in
    rust/ares/src/interpreter.rs do them. A `None` result is a Nock crash. */
module Axis {
  import opened Nouns

  /** Nock's fetch: `/[1 a] = a`, `/[2n a] = head of /[n a]`,
      `/[2n+1 a] = tail of /[n a]`; axis 0 and descent through an atom crash. */
  function Slot(noun: Noun, axis: nat): Option<Noun>
    decreases axis
  {
    if axis == 0 then None
    else if axis == 1 then Some(noun)
    else
      var up := Slot(noun, axis / 2);
      if up.Some? && up.value.Cell? then
        Some(if axis % 2 == 0 then up.value.h else up.value.t)
      else None
  }

  /** Nock's edit, as the Nock specification writes it:
      `#[1 b c] = b`, `#[2a b c] = #[a [b /[2a+1 c]] c]`,
      `#[2a+1 b c] = #[a [/[2a c] b] c]`. */
  function Edit(axis: nat, patch: Noun, tree: Noun): Option<Noun>
    decreases axis
  {
    if axis == 0 then None
    else if axis == 1 then Some(patch)
    else if axis % 2 == 0 then
      match Slot(tree, axis + 1)
      case Some(sib) => Edit(axis / 2, Cell(patch, sib), tree)
      case None => None
    else
      match Slot(tree, axis - 1)
      case Some(sib) => Edit(axis / 2, Cell(sib, patch), tree)
      case None => None
  }

  /** `raw_slot`: the axis is a machine word made into a direct atom first,
      and a word too wide for a direct atom panics. */
  function RawSlot(noun: Noun, axis: nat): (r: Option<Noun>)
    requires axis < 0x1_0000_0000_0000_0000  // a u64
    ensures r.Some? <==> axis <= DIRECT_MAX && Slot(noun, axis).Some?
    ensures r.Some? ==> r == Slot(noun, axis)
  {
    if axis > DIRECT_MAX then None else Slot(noun, axis)
  }

  /** `p` is `a` or an axis above it (`a` lies in the subtree at `p`). */
  predicate Above(p: nat, a: nat)
    decreases a
  {
    p >= 1 && a >= 1 && (p == a || (a > 1 && Above(p, a / 2)))
  }

  // ---------------------------------------------------------------------
  // The cursor loops of the source.

  /** `slot`: start at the most significant bit of the axis and step down one
      bit at a time, taking the tail on a 1 and the head on a 0. */
  method SlotCursor(noun: Noun, axis: nat) returns (r: Option<Noun>)
    ensures r == Slot(noun, axis)
  {
    var bits := Bits(axis);
    if |bits| == 0 {
      return None;  // 0 is not allowed as an axis
    }
    var cursor := |bits| - 1;
    var cur := noun;
    ValTop(bits);
    while cursor > 0
      invariant 0 <= cursor < |bits|
      invariant Slot(noun, Val(bits[cursor..])) == Some(cur)
      decreases cursor
    {
      ValSuffixPositive(bits, cursor);
      ValStep(bits, cursor);
      cursor := cursor - 1;
      if cur.Cell? {
        cur := if bits[cursor] then cur.t else cur.h;
      } else {
        // the axis tried to descend through an atom
        SlotBelowAtom(noun, bits, cursor);
        ValBits(axis);
        return None;
      }
    }
    ValBits(axis);
    r := Some(cur);
  }

  /** `edit`: the same walk, allocating a new cell at each level whose other
      half is the untouched sibling; the cell still to be filled in is the
      hole of `ctx` (the source's `dest` pointer). */
  method EditCursor(axis: nat, patch: Noun, tree: Noun) returns (r: Option<Noun>)
    ensures r == Edit(axis, patch, tree)
  {
    var bits := Bits(axis);
    if |bits| == 0 {
      return None;  // 0 is not allowed as an edit axis
    }
    var cursor := |bits| - 1;
    var cur := tree;
    var ctx: seq<Hole> := [];
    ValTop(bits);
    while cursor > 0
      invariant 0 <= cursor < |bits|
      invariant Slot(tree, Val(bits[cursor..])) == Some(cur)
      invariant forall y :: Edit(Val(bits[cursor..]), y, tree) == Some(Plug(ctx, y))
      decreases cursor
    {
      ValSuffixPositive(bits, cursor);
      ValStep(bits, cursor);
      ghost var q := Val(bits[cursor..]);
      if cur.Cell? {
        cursor := cursor - 1;
        if bits[cursor] {
          EditGoTail(q, tree, cur, ctx);
          ctx := ctx + [GoTail(cur.h)];
          cur := cur.t;
        } else {
          EditGoHead(q, tree, cur, ctx);
          ctx := ctx + [GoHead(cur.t)];
          cur := cur.h;
        }
      } else {
        // invalid axis for edit: the walk reached an atom
        SlotBelowAtom(tree, bits, cursor - 1);
        ValBits(axis);
        EditDefined(axis, patch, tree);
        return None;
      }
    }
    ValBits(axis);
    r := Some(Plug(ctx, patch));
  }

  /** One step of the edit walk: descending from the subtree at `q` into
      its tail adds one level to the context. */
  lemma EditGoTail(q: nat, tree: Noun, cur: Noun, ctx: seq<Hole>)
    requires q >= 1 && Slot(tree, q) == Some(cur) && cur.Cell?
    requires forall y :: Edit(q, y, tree) == Some(Plug(ctx, y))
    ensures Slot(tree, 2 * q + 1) == Some(cur.t)
    ensures forall y :: Edit(2 * q + 1, y, tree) == Some(Plug(ctx + [GoTail(cur.h)], y))
  {
    var a := 2 * q + 1;
    assert a / 2 == q && a % 2 == 1 && (a - 1) / 2 == q && (a - 1) % 2 == 0;
    assert Slot(tree, a - 1) == Some(cur.h);
    forall y ensures Edit(a, y, tree) == Some(Plug(ctx + [GoTail(cur.h)], y)) {
      assert Edit(a, y, tree) == Edit(q, Cell(cur.h, y), tree);
      PlugSnoc(ctx, GoTail(cur.h), y);
    }
  }

  /** ... and into its head likewise. */
  lemma EditGoHead(q: nat, tree: Noun, cur: Noun, ctx: seq<Hole>)
    requires q >= 1 && Slot(tree, q) == Some(cur) && cur.Cell?
    requires forall y :: Edit(q, y, tree) == Some(Plug(ctx, y))
    ensures Slot(tree, 2 * q) == Some(cur.h)
    ensures forall y :: Edit(2 * q, y, tree) == Some(Plug(ctx + [GoHead(cur.t)], y))
  {
    var a := 2 * q;
    assert a / 2 == q && a % 2 == 0 && (a + 1) / 2 == q && (a + 1) % 2 == 1;
    assert Slot(tree, a + 1) == Some(cur.t);
    forall y ensures Edit(a, y, tree) == Some(Plug(ctx + [GoHead(cur.t)], y)) {
      assert Edit(a, y, tree) == Edit(q, Cell(y, cur.t), tree);
      PlugSnoc(ctx, GoHead(cur.t), y);
    }
  }

  /** One level of a path under construction: the new cell's other half. */
  datatype Hole = GoHead(tail: Noun) | GoTail(head: Noun)

  /** Fill the innermost hole of a context with `y`. */
  function Plug(ctx: seq<Hole>, y: Noun): Noun
    decreases |ctx|
  {
    if ctx == [] then y
    else
      Plug(ctx[..|ctx| - 1], Fill(ctx[|ctx| - 1], y))
  }

  /** The new cell of one level, with `y` in its hole. */
  function Fill(hole: Hole, y: Noun): Noun
  {
    match hole
    case GoHead(t) => Cell(y, t)
    case GoTail(h) => Cell(h, y)
  }

  lemma PlugSnoc(ctx: seq<Hole>, hole: Hole, y: Noun)
    ensures Plug(ctx + [hole], y) == Plug(ctx, Fill(hole, y))
  {
    assert (ctx + [hole])[..|ctx|] == ctx;
  }

  /** Once the walk stands on an atom with bits still to read, the slot
      crashes. */
  lemma {:induction false} SlotBelowAtom(noun: Noun, bits: seq<bool>, c: nat)
    requires c + 1 < |bits| && bits[|bits| - 1]
    requires Slot(noun, Val(bits[c + 1..])).Some? && Slot(noun, Val(bits[c + 1..])).value.Atom?
    ensures Slot(noun, Val(bits)) == None
    decreases c
  {
    ValSuffixPositive(bits, c + 1);
    ValStep(bits, c + 1);
    assert Slot(noun, Val(bits[c..])) == None;
    SlotNoneBelow(noun, bits, c);
  }

  lemma {:induction false} SlotNoneBelow(noun: Noun, bits: seq<bool>, c: nat)
    requires c < |bits| && bits[|bits| - 1]
    requires Slot(noun, Val(bits[c..])) == None
    ensures Slot(noun, Val(bits)) == None
    decreases c
  {
    if c > 0 {
      ValSuffixPositive(bits, c);
      ValStep(bits, c);
      SlotNoneBelow(noun, bits, c - 1);
    } else {
      assert bits[0..] == bits;
    }
  }

  // ---------------------------------------------------------------------
  // Properties of fetch and edit.

  /** Fetching axis 2 and 3 of a cell gives its head and tail; axis 0 always
      crashes, axis 1 is the noun itself. */
  lemma SlotBasics(h: Noun, t: Noun, n: Noun)
    ensures Slot(Cell(h, t), 2) == Some(h) && Slot(Cell(h, t), 3) == Some(t)
    ensures Slot(n, 0) == None && Slot(n, 1) == Some(n)
  {
  }

  /** An edit succeeds exactly when the fetch at the same axis succeeds. */
  lemma {:induction false} EditDefined(axis: nat, patch: Noun, tree: Noun)
    ensures Edit(axis, patch, tree).Some? <==> Slot(tree, axis).Some?
    decreases axis
  {
    if axis > 1 {
      var sibAxis := if axis % 2 == 0 then axis + 1 else axis - 1;
      assert sibAxis / 2 == axis / 2;
      match Slot(tree, sibAxis)
      case Some(sib) =>
        var w := if axis % 2 == 0 then Cell(patch, sib) else Cell(sib, patch);
        EditDefined(axis / 2, w, tree);
      case None =>
    }
  }

  /** Fetching the edited axis returns the patch. */
  lemma {:induction false} SlotEdit(axis: nat, patch: Noun, tree: Noun)
    requires Edit(axis, patch, tree).Some?
    ensures Slot(Edit(axis, patch, tree).value, axis) == Some(patch)
    decreases axis
  {
    if axis > 1 {
      var sibAxis := if axis % 2 == 0 then axis + 1 else axis - 1;
      var sib := Slot(tree, sibAxis).value;
      var w := if axis % 2 == 0 then Cell(patch, sib) else Cell(sib, patch);
      SlotEdit(axis / 2, w, tree);
    }
  }

  /** A fetch only depends on the subtree at any axis above it. */
  lemma {:induction false} SlotThrough(x: Noun, y: Noun, p: nat, a: nat)
    requires Above(p, a) && Slot(x, p) == Slot(y, p)
    ensures Slot(x, a) == Slot(y, a)
    decreases a
  {
    if a != p {
      SlotThrough(x, y, p, a / 2);
    }
  }

  /** Edit leaves every axis that is neither above nor below the edited one
      as it was: the siblings along the path are shared, not rebuilt. */
  lemma {:induction false} EditKeepsOthers(axis: nat, patch: Noun, tree: Noun, other: nat)
    requires Edit(axis, patch, tree).Some?
    requires other >= 1 && !Above(other, axis) && !Above(axis, other)
    ensures Slot(Edit(axis, patch, tree).value, other) == Slot(tree, other)
    decreases axis
  {
    var edited := Edit(axis, patch, tree).value;
    AboveRoot(other);
    var p := axis / 2;
    var sibAxis := if axis % 2 == 0 then axis + 1 else axis - 1;
    assert sibAxis / 2 == p;
    var sib := Slot(tree, sibAxis).value;
    var w := if axis % 2 == 0 then Cell(patch, sib) else Cell(sib, patch);
    assert edited == Edit(p, w, tree).value;
    if Above(p, other) {
      // `other` lies below the sibling of `axis`
      assert other != p;
      var child := AboveChild(p, other);
      assert child != axis;
      assert child == sibAxis;
      SlotEdit(p, w, tree);
      assert Slot(edited, sibAxis) == Some(sib);
      SlotThrough(edited, tree, sibAxis, other);
    } else {
      AboveTrans(other, p, axis);
      EditKeepsOthers(p, w, tree, other);
    }
  }

  /** Below a strict ancestor `p`, every axis passes through a child of `p`. */
  lemma {:induction false} AboveChild(p: nat, a: nat) returns (child: nat)
    requires Above(p, a) && a != p
    ensures child / 2 == p && child >= 2 && Above(child, a)
    decreases a
  {
    if a / 2 == p {
      child := a;
    } else {
      child := AboveChild(p, a / 2);
    }
  }

  /** Every axis lies below the root. */
  lemma {:induction false} AboveRoot(a: nat)
    requires a >= 1
    ensures Above(1, a)
    decreases a
  {
    if a > 1 {
      AboveRoot(a / 2);
    }
  }

  lemma {:induction false} AboveTrans(a: nat, b: nat, c: nat)
    requires c / 2 == b && c >= 2
    ensures Above(a, b) ==> Above(a, c)
  {
  }
}
