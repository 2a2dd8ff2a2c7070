/** The fully implemented parts of the alternate, register-machine
    interpreter (`rust/ares/src/codegen.rs`): the virtual frame's poison
    bitmap and registers, the pole (straight-line) instructions `imm`,
    `mov`, `con`, `hed`, `tal`, `pol` and `poi`, the branch choice of the
    bend instructions `brn` and `eqq`, and the tree flattener `tap_in` with
    its use in `part_will`. An `Err` of the source, from `?` on a failed
    `slot` or a non-direct atom, is a crash here. */
module Codegen {
  import opened Nouns
  import opened Axis
  import opened Hamt
  import opened HamtFacts

  // ---------------------------------------------------------------------
  // Frame layout.

  /** `pois_sz`: the number of 64-bit words that hold one poison bit for
      each of `sans` registers. */
  function PoisSz(sans: nat): (r: nat)
    ensures sans <= 64 * r < sans + 64
  {
    sans / 64 + if sans % 64 == 0 then 0 else 1
  }

  /** The pushed frame is `header + pois_sz + sans` words, `header` being
      `size_of::<Frame>()` (a byte count, used as a word count in all three
      places, so the offsets agree). The poison word of register `local`
      lies between the header and the registers, and the register itself
      inside the frame: the two regions never overlap. */
  lemma FrameLayout(header: nat, sans: nat, local: nat)
    requires local < sans
    ensures header <= header + local / 64 < header + PoisSz(sans)
    ensures header + PoisSz(sans) + local < header + PoisSz(sans) + sans
  {
  }

  /** The bit position `local % 64` of a register's poison bit. */
  type Offset = o: bv8 | o < 64

  function OffsetOf(local: nat): (o: Offset)
    ensures o as int == local % 64
  {
    (local % 64) as bv8
  }

  /** `1 << offset` as a word. */
  function Mask(o: Offset): bv64
  {
    1 << (o as bv64)
  }

  /** Bit `o` of word `w`. */
  predicate Bit64(w: bv64, o: Offset)
  {
    (w >> (o as bv64)) & 1 == 1
  }

  /** Or-ing in a mask sets exactly its bit. */
  lemma OrMask(w: bv64, o: Offset, o': Offset)
    ensures Bit64(SetBit(w, o), o') == (Bit64(w, o') || o' == o)
  {
  }

  /** And-ing with a mask tests its bit. */
  lemma AndMask(w: bv64, o: Offset)
    ensures TestBit(w, o) == Bit64(w, o)
  {
  }

  /** Two registers with the same poison word and bit are the same. */
  lemma SameBit(a: nat, b: nat)
    requires a / 64 == b / 64 && OffsetOf(a) == OffsetOf(b)
    ensures a == b
  {
    assert a % 64 == b % 64;
  }

  lemma PoisonWordInFrame(sans: nat, local: nat)
    requires local < sans
    ensures local / 64 < PoisSz(sans)
  {
  }

  // ---------------------------------------------------------------------
  // The poison bitmap, as a sequence of words.

  /** Register `local` is poisoned: bit `local % 64` of word `local / 64`. */
  predicate Poisoned(words: seq<bv64>, local: nat)
  {
    local / 64 < |words| && Bit64(words[local / 64], OffsetOf(local))
  }

  /** `*bitmap |= 1 << offset`. */
  function SetBit(w: bv64, o: Offset): bv64
  {
    w | Mask(o)
  }

  /** `bitmap & (1 << offset) != 0`. */
  predicate TestBit(w: bv64, o: Offset)
  {
    w & Mask(o) != 0
  }

  /** `poison_set`: set the bit of `local` in word `local / 64`; every
      other word is kept. */
  function SetPoison(words: seq<bv64>, local: nat): (r: seq<bv64>)
    requires local / 64 < |words|
    ensures |r| == |words|
    ensures forall w | 0 <= w < |words| && w != local / 64 :: r[w] == words[w]
  {
    words[local / 64 := SetBit(words[local / 64], OffsetOf(local))]
  }

  /** After `poison_set(local)`, exactly the registers poisoned before and
      `local` are poisoned. */
  lemma SetPoisonExact(words: seq<bv64>, local: nat, l: nat)
    requires local / 64 < |words|
    ensures Poisoned(SetPoison(words, local), l) == (Poisoned(words, l) || l == local)
  {
    var i := local / 64;
    if l / 64 == i {
      OrMask(words[i], OffsetOf(local), OffsetOf(l));
      if OffsetOf(l) == OffsetOf(local) {
        SameBit(l, local);
      } else {
        assert l != local;
      }
    }
  }

  // ---------------------------------------------------------------------
  // The virtual frame.

  /** The poison words and the registers of a frame pushed for a pile of
      `sans` registers. The source keeps both in the frame's memory after
      the `Frame` header (see `FrameLayout`). */
  class VirtualFrame {
    const sans: nat
    const poison: array<bv64>
    const registers: array<Noun>

    ghost predicate Valid()
    {
      poison.Length == PoisSz(sans) && registers.Length == sans && poison as object != registers
    }

    /** `frame_push` does not clear memory: the frame starts with whatever
        words `poison0` and `registers0` say. */
    constructor (sans: nat, poison0: seq<bv64>, registers0: seq<Noun>)
      requires |poison0| == PoisSz(sans) && |registers0| == sans
      ensures Valid() && this.sans == sans
      ensures poison[..] == poison0 && registers[..] == registers0
      ensures fresh(poison) && fresh(registers)
    {
      this.sans := sans;
      poison := new bv64[|poison0|](i requires 0 <= i < |poison0| => poison0[i]);
      registers := new Noun[|registers0|](i requires 0 <= i < |registers0| => registers0[i]);
    }

    /** `register_set`: only register `local` changes. */
    method RegisterSet(local: nat, value: Noun)
      requires Valid() && local < sans
      modifies registers
      ensures registers[..] == old(registers[..])[local := value]
      ensures poison[..] == old(poison[..])
    {
      registers[local] := value;
    }

    /** `register_get`. */
    method RegisterGet(local: nat) returns (r: Noun)
      requires Valid() && local < sans
      ensures r == registers[local]
    {
      r := registers[local];
    }

    /** `poison_set`. */
    method PoisonSet(local: nat)
      requires Valid() && local < sans
      modifies poison
      ensures poison[..] == SetPoison(old(poison[..]), local)
      ensures registers[..] == old(registers[..])
    {
      PoisonWordInFrame(sans, local);
      var index := local / 64;
      poison[index] := SetBit(poison[index], OffsetOf(local));
    }

    /** `poison_get`: `bitmap & (1 << offset) != 0`. */
    method PoisonGet(local: nat) returns (r: bool)
      requires Valid() && local < sans
      ensures r == Poisoned(poison[..], local)
    {
      PoisonWordInFrame(sans, local);
      var bitmap := poison[local / 64];
      r := TestBit(bitmap, OffsetOf(local));
      AndMask(bitmap, OffsetOf(local));
    }

    /** One pole instruction (see `Apply`). */
    method ExecPole(op: PoleOp)
      requires Valid() && InFrame(op, sans)
      modifies registers, poison
      ensures Apply(op, old(registers[..]), old(poison[..])) == (registers[..], poison[..])
    {
      match op
      case Imm(value, d) =>
        RegisterSet(d, value);
      case Mov(s, d) =>
        var value := RegisterGet(s);
        RegisterSet(d, value);
      case Con(h, t, d) =>
        var hValue := RegisterGet(h);
        var tValue := RegisterGet(t);
        RegisterSet(d, Cell(hValue, tValue));
      case Hed(s, d) =>
        var sValue := RegisterGet(s);
        if sValue.Atom? {
          PoisonSet(s);
        } else {
          RegisterSet(d, sValue.h);
        }
      case Tal(s, d) =>
        var sValue := RegisterGet(s);
        if sValue.Atom? {
          PoisonSet(s);
        } else {
          RegisterSet(d, sValue.t);
        }
      case Pol(s, d) =>
        var poisoned := PoisonGet(s);
        if poisoned {
          PoisonSet(d);
        }
      case Poi(d) =>
        PoisonSet(d);
    }

    /** The body half of the `cg_interpret` loop: run the pole list
        `body` until it is 0. */
    method RunBody(body: Noun) returns (r: BodyEnd)
      requires Valid() && BodyInFrame(body, sans)
      modifies registers, poison
      ensures RunPoles(body, old(registers[..]), old(poison[..])) == (r, registers[..], poison[..])
    {
      var rest := body;
      while rest != Atom(0)
        invariant Valid() && BodyInFrame(rest, sans)
        invariant RunPoles(rest, registers[..], poison[..]) == RunPoles(body, old(registers[..]), old(poison[..]))
        decreases rest
      {
        if rest.Atom? {
          // `slot(body, 2)` of an atom
          return BodyCrash;
        }
        var pole := rest.h;
        rest := rest.t;
        match DecodePole(pole)
        case Malformed =>
          return BodyCrash;
        case Unmodelled(tag) =>
          return BodyUnmodelled(tag);
        case Op(op) =>
          ExecPole(op);
      }
      return Finished;
    }

    /** The branch half of the loop for `brn` and `eqq`: choose the label
        and fetch the blob it names from `will`. */
    method ExecBend(bend: Noun, will: HamtMap<Noun>, mug: Mug, rawEq: RawEq) returns (r: Next)
      requires Valid() && BendInFrame(bend, sans) && Shaped(will.root, 0)
      ensures r == Continue(Branch(bend, registers[..], rawEq), will, mug)
    {
      var tag := DirectAt(bend, 2);
      if tag.None? {
        return Crash;
      }
      var target: Option<Noun>;
      if tag.value == TAS_BRN {
        var s := DirectAt(bend, 6);
        if s.None? {
          return Crash;
        }
        var sValue := RegisterGet(s.value);
        if sValue == Atom(0) {
          target := Slot(bend, 14);
        } else if sValue == Atom(1) {
          target := Slot(bend, 15);
        } else {
          return Spin;
        }
      } else if tag.value == TAS_EQQ {
        var l := DirectAt(bend, 6);
        var rr := DirectAt(bend, 14);
        if l.None? || rr.None? {
          return Crash;
        }
        var lValue := RegisterGet(l.value);
        var rValue := RegisterGet(rr.value);
        target := if rawEq(lValue, rValue) then Slot(bend, 30) else Slot(bend, 31);
      } else if tag.value in OTHER_BENDS {
        return NextUnmodelled(tag.value);
      } else {
        // `panic!("invalid bend instruction")`
        return Crash;
      }
      if target.None? {
        return Crash;
      }
      var blob := Hamt.Lookup(will, mug, target.value);
      if blob.None? || blob.value.Atom? {
        return Crash;
      }
      return Jump(blob.value.h, blob.value.t);
    }
  }

  // ---------------------------------------------------------------------
  // Pole instructions.

  /** `tas!` of the instruction names. */
  const TAS_IMM: nat := 0x6d6d69
  const TAS_MOV: nat := 0x766f6d
  const TAS_CON: nat := 0x6e6f63
  const TAS_HED: nat := 0x646568
  const TAS_TAL: nat := 0x6c6174
  const TAS_POL: nat := 0x6c6f70
  const TAS_POI: nat := 0x696f70
  const TAS_BRN: nat := 0x6e7262
  const TAS_EQQ: nat := 0x717165

  /** The other pole tags the source's loop dispatches on (`inc`, `cop`,
      `lop`, `coc`, `hci`, `tci`, `men`, `man`, `slo`, `sld`, `hit`, `slg`,
      `mew`, `tim`, `tom`, `mem`, `ipb`); this model does not run them. */
  const OTHER_POLES: set<nat> := {
    0x636e69, 0x706f63, 0x706f6c, 0x636f63, 0x696368, 0x696374, 0x6e656d, 0x6e616d, 0x6f6c73,
    0x646c73, 0x746968, 0x676c73, 0x77656d, 0x6d6974, 0x6d6f74, 0x6d656d, 0x627069 }

  /** The other bend tags the source's loop dispatches on (`clq`, `hop`,
      `lnk`, `cal`, `caf`, `lnt`, `jmp`, `jmf`, `spy`, `mer`, `don`, `bom`). */
  const OTHER_BENDS: set<nat> := {
    0x716c63, 0x706f68, 0x6b6e6c, 0x6c6163, 0x666163, 0x746e6c, 0x706d6a, 0x666d6a, 0x797073,
    0x72656d, 0x6e6f64, 0x6d6f62 }

  /** A decoded pole; `s`, `h`, `t` are source registers, `d` the
      destination. */
  datatype PoleOp =
    | Imm(value: Noun, d: nat)
    | Mov(s: nat, d: nat)
    | Con(h: nat, t: nat, d: nat)
    | Hed(s: nat, d: nat)
    | Tal(s: nat, d: nat)
    | Pol(s: nat, d: nat)
    | Poi(d: nat)

  /** A decoded instruction; a crash while decoding it (a failing `?`, or
      the `panic!` on a tag the source does not know); or an instruction
      the source runs but this model does not. */
  datatype Decoded<T> = Op(op: T) | Malformed | Unmodelled(tag: nat)

  /** `slot(n, axis)?.as_direct()?.data()`. */
  function DirectAt(n: Noun, axis: nat): (r: Option<nat>)
    ensures r.Some? <==> Slot(n, axis).Some? && Slot(n, axis).value.Atom? && Slot(n, axis).value.n <= DIRECT_MAX
    ensures r.Some? ==> Slot(n, axis) == Some(Atom(r.value))
  {
    match Slot(n, axis)
    case Some(Atom(v)) => if v <= DIRECT_MAX then Some(v) else None
    case _ => None
  }

  /** Two register operands at axes 6 and 7 (`mov`, `hed`, `tal`, `pol`). */
  function Operands(pole: Noun): Option<(nat, nat)>
  {
    match (DirectAt(pole, 6), DirectAt(pole, 7))
    case (Some(s), Some(d)) => Some((s, d))
    case _ => None
  }

  function DecodePole(pole: Noun): Decoded<PoleOp>
  {
    match DirectAt(pole, 2)
    case None => Malformed
    case Some(tag) =>
      if tag == TAS_IMM then
        (match (DirectAt(pole, 7), Slot(pole, 6))
         case (Some(d), Some(value)) => Op(Imm(value, d))
         case _ => Malformed)
      else if tag == TAS_CON then
        (match (DirectAt(pole, 6), DirectAt(pole, 14), DirectAt(pole, 15))
         case (Some(h), Some(t), Some(d)) => Op(Con(h, t, d))
         case _ => Malformed)
      else if tag == TAS_POI then
        (match DirectAt(pole, 3)
         case Some(d) => Op(Poi(d))
         case None => Malformed)
      else if tag in {TAS_MOV, TAS_HED, TAS_TAL, TAS_POL} then
        (match Operands(pole)
         case None => Malformed
         case Some((s, d)) =>
           Op(if tag == TAS_MOV then Mov(s, d)
              else if tag == TAS_HED then Hed(s, d)
              else if tag == TAS_TAL then Tal(s, d)
              else Pol(s, d)))
      else if tag in OTHER_POLES then Unmodelled(tag)
      else Malformed
  }

  /** Every register an instruction names is one of the frame's `sans`:
      the source reads and writes frame memory unchecked, and the
      compiler that emits the pile is relied on for this. */
  predicate InFrame(op: PoleOp, sans: nat)
  {
    match op
    case Imm(_, d) => d < sans
    case Mov(s, d) => s < sans && d < sans
    case Con(h, t, d) => h < sans && t < sans && d < sans
    case Hed(s, d) => s < sans && d < sans
    case Tal(s, d) => s < sans && d < sans
    case Pol(s, d) => s < sans && d < sans
    case Poi(d) => d < sans
  }

  /** What a pole instruction does to the registers and the poison words. */
  function Apply(op: PoleOp, regs: seq<Noun>, words: seq<bv64>): (r: (seq<Noun>, seq<bv64>))
    requires InFrame(op, |regs|) && |words| == PoisSz(|regs|)
    ensures |r.0| == |regs| && |r.1| == |words|
  {
    match op
    case Imm(value, d) => (regs[d := value], words)
    case Mov(s, d) => (regs[d := regs[s]], words)
    case Con(h, t, d) => (regs[d := Cell(regs[h], regs[t])], words)
    case Hed(s, d) =>
      PoisonWordInFrame(|regs|, s);
      if regs[s].Atom? then (regs, SetPoison(words, s)) else (regs[d := regs[s].h], words)
    case Tal(s, d) =>
      PoisonWordInFrame(|regs|, s);
      if regs[s].Atom? then (regs, SetPoison(words, s)) else (regs[d := regs[s].t], words)
    case Pol(s, d) =>
      PoisonWordInFrame(|regs|, s);
      PoisonWordInFrame(|regs|, d);
      if Poisoned(words, s) then (regs, SetPoison(words, d)) else (regs, words)
    case Poi(d) =>
      PoisonWordInFrame(|regs|, d);
      (regs, SetPoison(words, d))
  }

  /** No pole instruction clears a poison bit, and the register writes
      (`imm`, `mov`, `con`, and `hed`/`tal` on a cell) poison nothing. */
  lemma PoisonOnlyGrows(op: PoleOp, regs: seq<Noun>, words: seq<bv64>, l: nat)
    requires InFrame(op, |regs|) && |words| == PoisSz(|regs|) && l < |regs|
    ensures Poisoned(words, l) ==> Poisoned(Apply(op, regs, words).1, l)
    ensures (op.Imm? || op.Mov? || op.Con? || ((op.Hed? || op.Tal?) && regs[op.s].Cell?))
              ==> Apply(op, regs, words).1 == words
  {
    PoisonWordInFrame(|regs|, l);
    match op
    case Hed(s, _) =>
      PoisonWordInFrame(|regs|, s);
      SetPoisonExact(words, s, l);
    case Tal(s, _) =>
      PoisonWordInFrame(|regs|, s);
      SetPoisonExact(words, s, l);
    case Pol(s, d) =>
      PoisonWordInFrame(|regs|, d);
      SetPoisonExact(words, d, l);
    case Poi(d) =>
      PoisonWordInFrame(|regs|, d);
      SetPoisonExact(words, d, l);
    case _ =>
  }

  /** `hed`/`tal` of an atom poisons exactly the source register and leaves
      every register, the destination included, unchanged. */
  lemma ProjectAtomPoisons(op: PoleOp, regs: seq<Noun>, words: seq<bv64>, l: nat)
    requires (op.Hed? || op.Tal?) && InFrame(op, |regs|) && |words| == PoisSz(|regs|)
    requires regs[op.s].Atom? && l < |regs|
    ensures Apply(op, regs, words).0 == regs
    ensures Poisoned(Apply(op, regs, words).1, l) == (Poisoned(words, l) || l == op.s)
  {
    PoisonWordInFrame(|regs|, l);
    PoisonWordInFrame(|regs|, op.s);
    SetPoisonExact(words, op.s, l);
  }

  /** `pol` poisons `d` when `s` is poisoned and nothing else; `poi`
      poisons `d` and nothing else. */
  lemma PoisonMoves(op: PoleOp, regs: seq<Noun>, words: seq<bv64>, l: nat)
    requires (op.Pol? || op.Poi?) && InFrame(op, |regs|) && |words| == PoisSz(|regs|) && l < |regs|
    ensures Apply(op, regs, words).0 == regs
    ensures op.Pol? ==>
      Poisoned(Apply(op, regs, words).1, l) == (Poisoned(words, l) || (l == op.d && Poisoned(words, op.s)))
    ensures op.Poi? ==> Poisoned(Apply(op, regs, words).1, l) == (Poisoned(words, l) || l == op.d)
  {
    PoisonWordInFrame(|regs|, l);
    PoisonWordInFrame(|regs|, op.d);
    SetPoisonExact(words, op.d, l);
    if op.Pol? {
      PoisonWordInFrame(|regs|, op.s);
    }
  }

  /** The cell `con` builds is taken apart again by `hed` and `tal`: they
      copy the original head and tail registers, poisoning nothing. */
  lemma ConThenProject(h: nat, t: nat, d: nat, x: nat, y: nat, regs: seq<Noun>, words: seq<bv64>)
    requires h < |regs| && t < |regs| && d < |regs| && x < |regs| && y < |regs| && |words| == PoisSz(|regs|)
    ensures
      var (r1, w1) := Apply(Con(h, t, d), regs, words);
      var (r2, w2) := Apply(Hed(d, x), r1, w1);
      var (r3, w3) := Apply(Tal(d, y), r1, w1);
      r2[x] == regs[h] && r3[y] == regs[t] && w2 == words && w3 == words
  {
  }

  /** The pole list `body` run from the given registers and poison words. */
  datatype BodyEnd = Finished | BodyCrash | BodyUnmodelled(tag: nat)

  predicate BodyInFrame(body: Noun, sans: nat)
  {
    match body
    case Atom(_) => true
    case Cell(pole, rest) =>
      match DecodePole(pole)
      case Op(op) => InFrame(op, sans) && BodyInFrame(rest, sans)
      case _ => true
  }

  function RunPoles(body: Noun, regs: seq<Noun>, words: seq<bv64>): (r: (BodyEnd, seq<Noun>, seq<bv64>))
    requires |words| == PoisSz(|regs|) && BodyInFrame(body, |regs|)
    ensures |r.1| == |regs| && |r.2| == |words|
  {
    match body
    case Atom(n) => (if n == 0 then Finished else BodyCrash, regs, words)
    case Cell(pole, rest) =>
      match DecodePole(pole)
      case Malformed => (BodyCrash, regs, words)
      case Unmodelled(tag) => (BodyUnmodelled(tag), regs, words)
      case Op(op) =>
        var (regs', words') := Apply(op, regs, words);
        RunPoles(rest, regs', words')
  }

  /** Running a body never clears a poison bit. */
  lemma {:induction false} RunPolesPoisonGrows(body: Noun, regs: seq<Noun>, words: seq<bv64>, l: nat)
    requires |words| == PoisSz(|regs|) && BodyInFrame(body, |regs|) && l < |regs|
    ensures Poisoned(words, l) ==> Poisoned(RunPoles(body, regs, words).2, l)
  {
    PoisonWordInFrame(|regs|, l);
    if body.Cell? && DecodePole(body.h).Op? {
      var op := DecodePole(body.h).op;
      PoisonOnlyGrows(op, regs, words, l);
      var (regs', words') := Apply(op, regs, words);
      RunPolesPoisonGrows(body.t, regs', words', l);
    }
  }

  // ---------------------------------------------------------------------
  // Bend instructions.

  /** `raw_equals`: word equality, which for cells and indirect atoms is
      pointer identity; the model takes it as a parameter. */
  type RawEq = (Noun, Noun) -> bool

  /** Raw equality implies equality, and equal direct atoms are raw-equal. */
  ghost predicate RawEqSound(rawEq: RawEq)
  {
    && (forall a, b :: rawEq(a, b) ==> a == b)
    && (forall n: nat :: n <= DIRECT_MAX ==> rawEq(Atom(n), Atom(n)))
  }

  /** The register operands of a `brn` or `eqq` bend are in the frame. */
  predicate BendInFrame(bend: Noun, sans: nat)
  {
    && (DirectAt(bend, 2) == Some(TAS_BRN) && DirectAt(bend, 6).Some? ==> DirectAt(bend, 6).value < sans)
    && (DirectAt(bend, 2) == Some(TAS_EQQ) && DirectAt(bend, 6).Some? && DirectAt(bend, 14).Some? ==>
          DirectAt(bend, 6).value < sans && DirectAt(bend, 14).value < sans)
  }

  /** The label a bend continues at; `Stay` is `brn` on a register that is
      neither 0 nor 1, where the source has no crash yet and leaves `body`
      and `bend` as they are; `Invalid` is a tag the source does not know,
      where it panics. */
  datatype Choice = Goto(at: Noun) | NoLabel | Stay | Invalid | ChoiceUnmodelled(tag: nat)

  function Target(at: Option<Noun>): Choice
  {
    if at.Some? then Goto(at.value) else NoLabel
  }

  function Branch(bend: Noun, regs: seq<Noun>, rawEq: RawEq): Choice
    requires BendInFrame(bend, |regs|)
  {
    match DirectAt(bend, 2)
    case None => NoLabel
    case Some(tag) =>
      if tag == TAS_BRN then
        (match DirectAt(bend, 6)
         case None => NoLabel
         case Some(s) =>
           if regs[s] == Atom(0) then Target(Slot(bend, 14))
           else if regs[s] == Atom(1) then Target(Slot(bend, 15))
           else Stay)
      else if tag == TAS_EQQ then
        (match (DirectAt(bend, 6), DirectAt(bend, 14))
         case (Some(l), Some(r)) =>
           if rawEq(regs[l], regs[r]) then Target(Slot(bend, 30)) else Target(Slot(bend, 31))
         case _ => NoLabel)
      else if tag in OTHER_BENDS then ChoiceUnmodelled(tag)
      else Invalid
  }

  /** `brn` goes to axis 14 on 0 and to axis 15 on 1. */
  lemma BrnChoice(bend: Noun, regs: seq<Noun>, rawEq: RawEq, s: nat)
    requires DirectAt(bend, 2) == Some(TAS_BRN) && DirectAt(bend, 6) == Some(s) && s < |regs|
    ensures regs[s] == Atom(0) ==> Branch(bend, regs, rawEq) == Target(Slot(bend, 14))
    ensures regs[s] == Atom(1) ==> Branch(bend, regs, rawEq) == Target(Slot(bend, 15))
    ensures Branch(bend, regs, rawEq).Goto? ==>
      (regs[s] == Atom(0) && Slot(bend, 14) == Some(Branch(bend, regs, rawEq).at))
      || (regs[s] == Atom(1) && Slot(bend, 15) == Some(Branch(bend, regs, rawEq).at))
  {
  }

  /** `eqq` goes to axis 30 when the registers hold the same direct atom
      and to axis 31 when they differ. */
  lemma EqqChoice(bend: Noun, regs: seq<Noun>, rawEq: RawEq, l: nat, r: nat)
    requires RawEqSound(rawEq)
    requires DirectAt(bend, 2) == Some(TAS_EQQ) && DirectAt(bend, 6) == Some(l) && DirectAt(bend, 14) == Some(r)
    requires l < |regs| && r < |regs|
    ensures regs[l] == regs[r] && regs[l].Atom? && regs[l].n <= DIRECT_MAX ==>
      Branch(bend, regs, rawEq) == Target(Slot(bend, 30))
    ensures regs[l] != regs[r] ==> Branch(bend, regs, rawEq) == Target(Slot(bend, 31))
  {
    if regs[l] == regs[r] && regs[l].Atom? && regs[l].n <= DIRECT_MAX {
      assert rawEq(Atom(regs[l].n), Atom(regs[l].n));
    }
  }

  /** Where the loop goes next: the blob the label names in `will`, split
      into its body and bend. */
  datatype Next = Jump(body: Noun, bend: Noun) | Crash | Spin | NextUnmodelled(tag: nat)

  function Continue(c: Choice, will: HamtMap<Noun>, mug: Mug): Next
    requires Shaped(will.root, 0)
  {
    match c
    case Goto(at) =>
      var blob: Option<Noun> := Hamt.Lookup(will, mug, at);
      if blob.Some? && blob.value.Cell? then Jump(blob.value.h, blob.value.t) else Crash
    case NoLabel => Crash
    case Stay => Spin
    case Invalid => Crash
    case ChoiceUnmodelled(tag) => NextUnmodelled(tag)
  }

  /** A pole tag the source's loop does not know reaches its `panic!`: the
      body crashes there. */
  lemma UnknownPoleCrashes(pole: Noun, rest: Noun, regs: seq<Noun>, words: seq<bv64>, tag: nat)
    requires DirectAt(pole, 2) == Some(tag) && tag !in OTHER_POLES
    requires tag !in {TAS_IMM, TAS_MOV, TAS_CON, TAS_HED, TAS_TAL, TAS_POL, TAS_POI}
    requires |words| == PoisSz(|regs|)
    ensures BodyInFrame(Cell(pole, rest), |regs|)
    ensures RunPoles(Cell(pole, rest), regs, words) == (BodyCrash, regs, words)
  {
  }

  /** So does a bend tag the source does not know. */
  lemma UnknownBendCrashes(bend: Noun, regs: seq<Noun>, will: HamtMap<Noun>, mug: Mug, rawEq: RawEq, tag: nat)
    requires DirectAt(bend, 2) == Some(tag) && tag !in OTHER_BENDS && tag != TAS_BRN && tag != TAS_EQQ
    requires Shaped(will.root, 0)
    ensures BendInFrame(bend, |regs|)
    ensures Continue(Branch(bend, regs, rawEq), will, mug) == Crash
  {
  }

  // ---------------------------------------------------------------------
  // Flattening a tree.

  /** The nodes of a [node [l r]] tree in pre-order (node, then left, then
      right); `None` when a non-null subtree is not of that shape. */
  function PreOrder(t: Noun): Option<seq<Noun>>
  {
    match t
    case Atom(n) => if n == 0 then Some([]) else None
    case Cell(node, lr) =>
      match lr
      case Atom(_) => None
      case Cell(l, r) =>
        match (PreOrder(l), PreOrder(r))
        case (Some(pl), Some(pr)) => Some([node] + pl + pr)
        case _ => None
  }

  /** The nodes of a tree, as a multiset. */
  function Nodes(t: Noun): multiset<Noun>
  {
    match t
    case Atom(_) => multiset{}
    case Cell(node, lr) =>
      match lr
      case Atom(_) => multiset{}
      case Cell(l, r) => multiset{node} + Nodes(l) + Nodes(r)
  }

  /** The pre-order lists every node of the tree exactly once. */
  lemma {:induction false} PreOrderNodes(t: Noun)
    requires PreOrder(t).Some?
    ensures multiset(PreOrder(t).value) == Nodes(t)
  {
    match t
    case Atom(_) =>
    case Cell(node, lr) =>
      var l, r := lr.h, lr.t;
      PreOrderNodes(l);
      PreOrderNodes(r);
      var pl, pr := PreOrder(l).value, PreOrder(r).value;
      assert multiset([node] + pl + pr) == multiset{node} + multiset(pl) + multiset(pr);
  }

  /** Consing each of `xs`, in order, onto `b`. */
  function Onto(xs: seq<Noun>, b: Noun): Noun
  {
    if xs == [] then b else Onto(xs[1..], Cell(xs[0], b))
  }

  /** Consing onto 0 lists the nodes in reverse order. */
  lemma {:induction false} OntoReverses(xs: seq<Noun>, b: Noun, bs: seq<Noun>)
    requires ListToSeq(b) == Some(bs)
    ensures ListToSeq(Onto(xs, b)) == Some(Reverse(xs) + bs)
    decreases |xs|
  {
    if xs != [] {
      assert ListToSeq(Cell(xs[0], b)) == Some([xs[0]] + bs);
      OntoReverses(xs[1..], Cell(xs[0], b), [xs[0]] + bs);
      assert Reverse(xs) + bs == Reverse(xs[1..]) + ([xs[0]] + bs);
    } else {
      assert Reverse(xs) + bs == bs;
    }
  }

  function Reverse<T>(s: seq<T>): (r: seq<T>)
    ensures |r| == |s|
  {
    if s == [] then [] else Reverse(s[1..]) + [s[0]]
  }

  lemma {:induction false} ReverseMultiset<T>(s: seq<T>)
    ensures multiset(Reverse(s)) == multiset(s)
    decreases |s|
  {
    if s != [] {
      ReverseMultiset(s[1..]);
      assert s == [s[0]] + s[1..];
    }
  }

  /** The size of a noun, which the traversal stack shrinks. */
  function Size(t: Noun): nat
  {
    match t
    case Atom(_) => 1
    case Cell(h, t) => 1 + Size(h) + Size(t)
  }

  /** The traversal stack, top last. */
  function StackSize(stack: seq<Noun>): nat
  {
    if stack == [] then 0 else StackSize(stack[..|stack| - 1]) + Size(stack[|stack| - 1])
  }

  /** The nodes still to be visited from the stack, top first. */
  function Pending(stack: seq<Noun>): Option<seq<Noun>>
  {
    if stack == [] then Some([]) else
      match (PreOrder(stack[|stack| - 1]), Pending(stack[..|stack| - 1]))
      case (Some(p), Some(q)) => Some(p + q)
      case _ => None
  }

  /** The result the traversal arrives at from `nodes` still to visit onto
      `b`. */
  function Outcome(nodes: Option<seq<Noun>>, b: Noun): Option<Noun>
  {
    if nodes.Some? then Some(Onto(nodes.value, b)) else None
  }

  /** `util::tap_in`: flatten the tree `a` onto `b` with an explicit stack,
      pushing `r` before `l`, so the nodes are consed on in pre-order and
      the result lists them newest first. A non-null subtree that is not a
      [node [l r]] cell crashes. */
  method TapIn(a: Noun, b0: Noun) returns (r: Option<Noun>)
    ensures r == Outcome(PreOrder(a), b0)
  {
    var stack := [a];
    var b := b0;
    PendingPush([], a);
    assert [] + [a] == [a];
    if PreOrder(a).Some? {
      assert PreOrder(a).value + [] == PreOrder(a).value;
    }
    while stack != []
      invariant Outcome(Pending(stack), b) == Outcome(PreOrder(a), b0)
      decreases StackSize(stack)
    {
      var tree := stack[|stack| - 1];
      var below := stack[..|stack| - 1];
      assert stack == below + [tree];
      PendingPush(below, tree);
      StackSizePush(below, tree);
      stack := below;
      if tree == Atom(0) {
        if Pending(below).Some? {
          assert [] + Pending(below).value == Pending(below).value;
        }
        continue;
      }
      if tree.Atom? || tree.t.Atom? {
        return None;
      }
      var node, l, rr := tree.h, tree.t.h, tree.t.t;
      PushChildren(below, node, l, rr);
      PushChildrenSmaller(below, node, l, rr);
      if Pending(stack + [rr] + [l]).Some? {
        var rest := Pending(stack + [rr] + [l]).value;
        assert ([node] + rest)[1..] == rest;
      }
      b := Cell(node, b);
      stack := stack + [rr] + [l];
    }
    return Some(b);
  }

  lemma PendingPush(below: seq<Noun>, t: Noun)
    ensures Pending(below + [t]) ==
      if PreOrder(t).Some? && Pending(below).Some? then Some(PreOrder(t).value + Pending(below).value) else None
  {
    assert (below + [t])[..|below|] == below;
  }

  lemma StackSizePush(below: seq<Noun>, t: Noun)
    ensures StackSize(below + [t]) == StackSize(below) + Size(t)
  {
    assert (below + [t])[..|below|] == below;
  }

  /** Replacing a [node [l r]] top by `r` then `l` visits the node now and
      keeps the rest of the order. */
  lemma PushChildren(below: seq<Noun>, node: Noun, l: Noun, r: Noun)
    ensures var s := below + [r] + [l];
      var t := below + [Cell(node, Cell(l, r))];
      && (Pending(t).Some? <==> Pending(s).Some?)
      && (Pending(t).Some? ==> Pending(t).value == [node] + Pending(s).value)
  {
    PendingPush(below, r);
    PendingPush(below + [r], l);
    PendingPush(below, Cell(node, Cell(l, r)));
    if PreOrder(l).Some? && PreOrder(r).Some? && Pending(below).Some? {
      var pl, pr, q := PreOrder(l).value, PreOrder(r).value, Pending(below).value;
      assert [node] + pl + pr + q == [node] + (pl + (pr + q));
    }
  }

  /** ... and makes the stack smaller. */
  lemma PushChildrenSmaller(below: seq<Noun>, node: Noun, l: Noun, r: Noun)
    ensures StackSize(below + [r] + [l]) < StackSize(below + [Cell(node, Cell(l, r))])
  {
    StackSizePush(below, r);
    StackSizePush(below + [r], l);
    StackSizePush(below, Cell(node, Cell(l, r)));
  }

  /** `util::tap`: flatten the tree at axis 30 of `m` (the `map` argument) onto 0. */
  method Tap(m: Noun) returns (r: Option<Noun>)
    ensures Slot(m, 30).None? ==> r.None?
    ensures Slot(m, 30).Some? ==> r == Outcome(PreOrder(Slot(m, 30).value), Atom(0))
  {
    var tree := Slot(m, 30);
    if tree.None? {
      return None;
    }
    r := TapIn(tree.value, Atom(0));
  }

  /** The flattened tree lists every node exactly once, last visited first. */
  lemma TapLists(a: Noun)
    requires PreOrder(a).Some?
    ensures ListToSeq(Onto(PreOrder(a).value, Atom(0))) == Some(Reverse(PreOrder(a).value))
    ensures multiset(Reverse(PreOrder(a).value)) == Nodes(a)
  {
    OntoReverses(PreOrder(a).value, Atom(0), []);
    assert Reverse(PreOrder(a).value) + [] == Reverse(PreOrder(a).value);
    ReverseMultiset(PreOrder(a).value);
    PreOrderNodes(a);
  }

  // ---------------------------------------------------------------------
  // part_will.

  /** A noun list of [key value] cells as pairs; `None` when the list does
      not end in 0 or an element is an atom. */
  function KeyValues(kvs: Noun): Option<seq<(Noun, Noun)>>
  {
    match kvs
    case Atom(n) => if n == 0 then Some([]) else None
    case Cell(kv, rest) =>
      match (kv, KeyValues(rest))
      case (Cell(k, v), Some(ps)) => Some([(k, v)] + ps)
      case _ => None
  }

  /** The value of the last pair with key `k`. */
  function LastValue(ps: seq<(Noun, Noun)>, k: Noun): Option<Noun>
  {
    if ps == [] then None
    else if ps[|ps| - 1].0 == k then Some(ps[|ps| - 1].1)
    else LastValue(ps[..|ps| - 1], k)
  }

  /** What the pairs seen so far and the list still to go say about the
      whole list. */
  function Joined(done: seq<(Noun, Noun)>, kvs: Noun): Option<seq<(Noun, Noun)>>
  {
    if KeyValues(kvs).Some? then Some(done + KeyValues(kvs).value) else None
  }

  lemma JoinedStep(done: seq<(Noun, Noun)>, kvs: Noun)
    requires kvs.Cell? && kvs.h.Cell?
    ensures Joined(done, kvs) == Joined(done + [(kvs.h.h, kvs.h.t)], kvs.t)
  {
    if KeyValues(kvs.t).Some? {
      assert done + KeyValues(kvs).value == (done + [(kvs.h.h, kvs.h.t)]) + KeyValues(kvs.t).value;
    }
  }

  /** Inserting a pair into a HAMT that holds the last value of each key of
      `done` makes it hold the last value of each key of `done` and the
      pair. */
  lemma InsertLast(m: HamtMap<Noun>, mug: Mug, k: Noun, v: Noun, f: nat, done: seq<(Noun, Noun)>)
    requires Shaped(m.root, 0)
    requires forall k2 :: Hamt.Lookup(m, mug, k2) == LastValue(done, k2)
    ensures forall k2 :: Hamt.Lookup(Insert(m, mug, k, v, f), mug, k2) == LastValue(done + [(k, v)], k2)
  {
    forall k2 ensures Hamt.Lookup(Insert(m, mug, k, v, f), mug, k2) == LastValue(done + [(k, v)], k2) {
      LookupInsert(m, mug, k, v, f, k2);
      assert (done + [(k, v)])[..|done|] == done;
    }
  }

  /** `util::part_will`: insert every [bile blob] of the flattened `will`
      into a new HAMT, allocated in frame `cur`; a later pair for the same
      label replaces an earlier one. */
  method PartWill(mug: Mug, will: Noun, cur: nat) returns (r: Option<HamtMap<Noun>>)
    ensures r.Some? ==> Shaped(r.value.root, 0)
    ensures
      var tapped := if Slot(will, 30).Some? then Outcome(PreOrder(Slot(will, 30).value), Atom(0)) else None;
      && (r.Some? <==> tapped.Some? && KeyValues(tapped.value).Some?)
      && (r.Some? ==> forall k :: Hamt.Lookup(r.value, mug, k) == LastValue(KeyValues(tapped.value).value, k))
  {
    var tapped := Tap(will);
    if tapped.None? {
      return None;
    }
    var kvs := tapped.value;
    var hamt: HamtMap<Noun> := Empty();
    ghost var done: seq<(Noun, Noun)> := [];
    if KeyValues(kvs).Some? {
      assert done + KeyValues(kvs).value == KeyValues(kvs).value;
    }
    forall k ensures Hamt.Lookup(hamt, mug, k) == LastValue(done, k) {
      LookupEmpty<Noun>(mug, k);
    }
    while kvs != Atom(0)
      invariant Shaped(hamt.root, 0)
      invariant forall k :: Hamt.Lookup(hamt, mug, k) == LastValue(done, k)
      invariant KeyValues(tapped.value) == Joined(done, kvs)
      decreases kvs
    {
      if kvs.Atom? || kvs.h.Atom? {
        // `kvs.as_cell()?`, or `slot(kv, 2)?` of an atom
        return None;
      }
      var bile, blob := kvs.h.h, kvs.h.t;
      InsertLast(hamt, mug, bile, blob, cur, done);
      JoinedStep(done, kvs);
      hamt := Insert(hamt, mug, bile, blob, cur);
      done := done + [(bile, blob)];
      kvs := kvs.t;
    }
    assert done + [] == done;
    return Some(hamt);
  }
}
