/** The value type every part of the core works on: a noun is an atom (an
    unsigned integer of any size) or a cell (an ordered pair of nouns).
    Unifying equality is modelled as structural equality: in the source it only
    rewrites pointers between nouns that are already equal. */
module Nouns {

  datatype Noun = Atom(n: nat) | Cell(h: Noun, t: Noun)

  datatype Option<T> = None | Some(value: T)

  /** The largest value a direct atom holds (the top bit of a word is the tag). */
  const DIRECT_MAX: nat := 0x7FFF_FFFF_FFFF_FFFF

  /** `tas!` encodes the bytes of a short text little-endian in one word. */
  const TAS_MEMO: nat := 0x6f6d656d
  const TAS_SHAM: nat := 0x6d616873
  const TAS_SLOG: nat := 0x676f6c73

  /** A null-terminated noun list read as a sequence; `None` when the list
      ends in an atom other than 0. */
  function ListToSeq(l: Noun): Option<seq<Noun>>
  {
    match l
    case Atom(n) => if n == 0 then Some([]) else None
    case Cell(h, t) =>
      match ListToSeq(t)
      case None => None
      case Some(s) => Some([h] + s)
  }

  /** A sequence as a null-terminated noun list. */
  function SeqToList(s: seq<Noun>): Noun
  {
    if s == [] then Atom(0) else Cell(s[0], SeqToList(s[1..]))
  }

  lemma {:induction false} ListRoundTrip(s: seq<Noun>)
    ensures ListToSeq(SeqToList(s)) == Some(s)
  {
    if s != [] {
      ListRoundTrip(s[1..]);
      assert [s[0]] + s[1..] == s;
    }
  }

  // ---------------------------------------------------------------------
  // Bits of an atom, least significant first, as a bit slice reads them.

  /** The bits of `a` least significant first, without leading zeros, so
      the last element is the most significant one (the slice's `last_one`). */
  function Bits(a: nat): (r: seq<bool>)
    ensures a == 0 <==> r == []
    ensures a > 0 ==> r[|r| - 1]
    decreases a
  {
    if a == 0 then [] else [a % 2 == 1] + Bits(a / 2)
  }

  /** The number a bit sequence (least significant first) denotes. */
  function Val(bits: seq<bool>): nat
  {
    if bits == [] then 0 else (if bits[0] then 1 else 0) + 2 * Val(bits[1..])
  }

  lemma {:induction false} ValBits(a: nat)
    ensures Val(Bits(a)) == a
    decreases a
  {
    if a > 0 {
      ValBits(a / 2);
      assert Bits(a)[1..] == Bits(a / 2);
    }
  }

  /** Reading one more bit below a suffix doubles the suffix's value and
      adds the bit. */
  lemma ValStep(bits: seq<bool>, c: nat)
    requires 0 < c <= |bits|
    ensures Val(bits[c - 1..]) == (if bits[c - 1] then 1 else 0) + 2 * Val(bits[c..])
  {
    assert bits[c - 1..][1..] == bits[c..];
  }

  /** A suffix of a minimal bit sequence that keeps the top bit is at least 1. */
  lemma {:induction false} ValSuffixPositive(bits: seq<bool>, c: nat)
    requires c < |bits| && bits[|bits| - 1]
    ensures Val(bits[c..]) >= 1
    decreases |bits| - c
  {
    if c < |bits| - 1 {
      ValSuffixPositive(bits, c + 1);
      ValStep(bits, c + 1);
    } else {
      assert bits[c..][1..] == [];
    }
  }

  lemma ValTop(bits: seq<bool>)
    requires |bits| > 0 && bits[|bits| - 1]
    ensures Val(bits[|bits| - 1..]) == 1
  {
    assert bits[|bits| - 1..][1..] == [];
  }
}
