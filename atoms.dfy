/** The word-level representation of atoms, as far as Nock 4 (increment)
    touches it: a direct atom fits in 63 bits, an indirect atom is a buffer of
    64-bit words read as a little-endian bit slice. */
module Atoms {
  import opened Nouns

  datatype AtomRep =
    | Direct(d: nat)
    | Indirect(size: nat, bits: seq<bool>)  // `size` words, `bits` least significant first

  /** A representation the allocator hands out: direct atoms are in range,
      indirect atoms are exactly `size` words long, at least one word, with a
      value too large to be direct and a non-zero top word. */
  predicate WF(a: AtomRep)
  {
    match a
    case Direct(d) => d <= DIRECT_MAX
    case Indirect(size, bits) =>
      size >= 1 && |bits| == 64 * size && Val(bits) > DIRECT_MAX
      && exists i | 64 * (size - 1) <= i < |bits| :: bits[i]
  }

  function Value(a: AtomRep): nat
  {
    match a
    case Direct(d) => d
    case Indirect(_, bits) => Val(bits)
  }

  function Pow2(k: nat): (r: nat)
    ensures r >= 1
  {
    if k == 0 then 1 else 2 * Pow2(k - 1)
  }

  function Zeros(k: nat): (r: seq<bool>)
    ensures |r| == k && forall i :: 0 <= i < k ==> !r[i]
  {
    seq(k, _ => false)
  }

  /** `Atom::new`: a value that fits is direct; a larger one is an indirect
      atom of the fewest whole words that hold its bits. */
  function AtomNew(n: nat): (r: AtomRep)
    ensures WF(r) && Value(r) == n
  {
    if n <= DIRECT_MAX then Direct(n)
    else
      var b := Bits(n);
      assert |b| >= 1;
      var size := |b| / 64 + (if |b| % 64 == 0 then 0 else 1);
      assert 64 * size >= |b| && 64 * (size - 1) < |b|;
      var pad := 64 * size - |b|;
      var padded := b + Zeros(pad);
      ValAppend(b, Zeros(pad));
      ValZeros(pad);
      assert Val(padded) == Val(b);
      ValBits(n);
      assert padded[|b| - 1];
      Indirect(size, padded)
  }

  /** Index of the lowest clear bit, if any (`first_zero`). */
  function FirstZero(bits: seq<bool>): (r: Option<nat>)
    ensures r.Some? ==> r.value < |bits| && !bits[r.value] && forall i :: 0 <= i < r.value ==> bits[i]
    ensures r.None? ==> forall i :: 0 <= i < |bits| ==> bits[i]
  {
    if bits == [] then None
    else if !bits[0] then Some(0)
    else
      match FirstZero(bits[1..])
      case None => None
      case Some(z) => Some(z + 1)
  }

  /** `inc`: a direct atom goes through `Atom::new`; an indirect atom of all
      ones grows by one word holding only the new top bit; otherwise the
      lowest clear bit is set, the bits above it are copied and the bits
      below it (all ones before) become zero in the fresh buffer. */
  function Inc(a: AtomRep): AtomRep
  {
    match a
    case Direct(d) => AtomNew(d + 1)
    case Indirect(size, bits) =>
      match FirstZero(bits)
      case None =>
        Indirect(size + 1, Zeros(|bits|) + [true] + Zeros(63))
      case Some(z) =>
        Indirect(size, Zeros(z) + [true] + bits[z + 1..])
  }

  /** Increment is `+1` on values and hands out a well-formed representation:
      the property Nock 4 needs. */
  lemma IncValue(a: AtomRep)
    requires WF(a)
    ensures WF(Inc(a)) && Value(Inc(a)) == Value(a) + 1
  {
    match a
    case Direct(d) =>
    case Indirect(size, bits) =>
      match FirstZero(bits)
      case None =>
        assert bits == Ones(|bits|);
        IncAllOnes(|bits|);
        var r := Zeros(|bits|) + [true] + Zeros(63);
        assert r[|bits|];
        assert 64 * (size + 1 - 1) <= |bits|;
      case Some(z) =>
        var rest := bits[z + 1..];
        assert bits == Ones(z) + [false] + rest;
        IncClearBit(z, rest);
        var r := Zeros(z) + [true] + rest;
        var i :| 64 * (size - 1) <= i < |bits| && bits[i];
        var w := if i <= z then z else i;
        assert r[w];
  }

  /** All ones plus one is the next power of two. */
  lemma IncAllOnes(n: nat)
    ensures Val(Zeros(n) + [true] + Zeros(63)) == Val(Ones(n)) + 1
  {
    ValAppend(Zeros(n) + [true], Zeros(63));
    ValAppend(Zeros(n), [true]);
    ValZeros(n);
    ValZeros(63);
    ValSingle(true);
    ValOnes(n);
    assert Val(Zeros(n) + [true]) == Pow2(n);
  }

  /** A run of ones below a clear bit plus one is that bit set over zeros. */
  lemma IncClearBit(z: nat, rest: seq<bool>)
    ensures Val(Zeros(z) + [true] + rest) == Val(Ones(z) + [false] + rest) + 1
  {
    var hi := Pow2(z + 1) * Val(rest);
    ValAppend(Ones(z) + [false], rest);
    ValAppend(Zeros(z) + [true], rest);
    ValAppend(Ones(z), [false]);
    ValAppend(Zeros(z), [true]);
    ValOnes(z);
    ValZeros(z);
    ValSingle(true);
    ValSingle(false);
    assert Val(Ones(z) + [false]) == Pow2(z) - 1;
    assert Val(Zeros(z) + [true]) == Pow2(z);
    assert Val(Ones(z) + [false] + rest) == Pow2(z) - 1 + hi;
    assert Val(Zeros(z) + [true] + rest) == Pow2(z) + hi;
  }

  function Ones(k: nat): (r: seq<bool>)
    ensures |r| == k && forall i :: 0 <= i < k ==> r[i]
  {
    seq(k, _ => true)
  }

  lemma ValSingle(b: bool)
    ensures Val([b]) == if b then 1 else 0
  {
    assert [b][1..] == [];
  }

  lemma {:induction false} ValAppend(a: seq<bool>, b: seq<bool>)
    ensures Val(a + b) == Val(a) + Pow2(|a|) * Val(b)
    decreases |a|
  {
    if a != [] {
      assert (a + b)[1..] == a[1..] + b;
      ValAppend(a[1..], b);
      var bit := if a[0] then 1 else 0;
      var x, p, v := Val(a[1..]), Pow2(|a| - 1), Val(b);
      assert (a + b)[0] == a[0];
      assert Val(a + b) == bit + 2 * Val(a[1..] + b);
      assert Val(a[1..] + b) == x + p * v;
      Distrib(x, p, v);
      assert Val(a) == bit + 2 * x;
      assert Pow2(|a|) == 2 * p;
    } else {
      assert a + b == b;
    }
  }

  lemma Distrib(x: int, p: int, v: int)
    ensures 2 * (x + p * v) == 2 * x + (2 * p) * v
  {
  }

  lemma {:induction false} ValZeros(k: nat)
    ensures Val(Zeros(k)) == 0
  {
    if k > 0 {
      assert Zeros(k)[1..] == Zeros(k - 1);
      ValZeros(k - 1);
    }
  }

  lemma {:induction false} ValOnes(k: nat)
    ensures Val(Ones(k)) == Pow2(k) - 1
  {
    if k > 0 {
      assert Ones(k)[1..] == Ones(k - 1);
      ValOnes(k - 1);
    }
  }
}
