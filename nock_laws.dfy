/** Laws of the reference evaluator: more fuel never changes a result, the
    opcode rules Nock 4K states, the crash cases, and the memo cache's
    behaviour within one evaluation. */
module NockLaws {
  import opened Nouns
  import opened Axis
  import opened Hamt
  import opened Interpreter

  /** The formula `[op arg]` for an atom opcode. */
  function Op(op: nat, arg: Noun): Noun
  {
    Cell(Atom(op), arg)
  }

  // ---------------------------------------------------------------------
  // Fuel.

  /** An evaluation that finishes (with a product or a crash) within some
      fuel finishes the same way with any more fuel. */
  lemma {:induction false} EvalMono(fuel: nat, more: nat, env: Env, s: Noun, f: Noun, cache: Cache)
    requires fuel <= more && !Eval(fuel, env, s, f, cache).OutOfFuel?
    ensures Eval(more, env, s, f, cache) == Eval(fuel, env, s, f, cache)
    decreases fuel, 0
  {
    if f.Atom? {
      return;
    }
    var arg := f.t;
    if f.h.Cell? {
      ConsMono(fuel - 1, more - 1, env, s, f.h, arg, cache);
    } else if f.h.n == 2 {
      Mono2(fuel - 1, more - 1, env, s, arg, cache);
    } else if f.h.n == 3 || f.h.n == 4 {
      MonoOne(fuel - 1, more - 1, env, s, arg, cache);
    } else if f.h.n == 5 {
      Mono5(fuel - 1, more - 1, env, s, arg, cache);
    } else if f.h.n == 6 {
      Mono6(fuel - 1, more - 1, env, s, arg, cache);
    } else if f.h.n == 7 || f.h.n == 8 {
      Mono78(fuel - 1, more - 1, env, s, arg, cache);
    } else if f.h.n == 9 {
      Mono9(fuel - 1, more - 1, env, s, arg, cache);
    } else if f.h.n == 10 {
      Mono10(fuel - 1, more - 1, env, s, arg, cache);
    } else if f.h.n == 11 {
      Mono11(fuel - 1, more - 1, env, s, arg, cache);
    }
  }

  lemma {:induction false} ConsMono(fuel: nat, more: nat, env: Env, s: Noun, hf: Noun, tf: Noun, cache: Cache)
    requires fuel <= more && !EvalCons(fuel, env, s, hf, tf, cache).OutOfFuel?
    ensures EvalCons(more, env, s, hf, tf, cache) == EvalCons(fuel, env, s, hf, tf, cache)
    decreases fuel, 1
  {
    var h := Eval(fuel, env, s, hf, cache);
    EvalMono(fuel, more, env, s, hf, cache);
    if h.Ok? {
      EvalMono(fuel, more, env, s, tf, h.cache);
    }
  }

  lemma {:induction false} Mono2(fuel: nat, more: nat, env: Env, s: Noun, arg: Noun, cache: Cache)
    requires fuel <= more && !Eval2(fuel, env, s, arg, cache).OutOfFuel?
    ensures Eval2(more, env, s, arg, cache) == Eval2(fuel, env, s, arg, cache)
    decreases fuel, 1
  {
    if arg.Cell? {
      var x := Eval(fuel, env, s, arg.h, cache);
      EvalMono(fuel, more, env, s, arg.h, cache);
      if x.Ok? {
        var y := Eval(fuel, env, s, arg.t, x.cache);
        EvalMono(fuel, more, env, s, arg.t, x.cache);
        if y.Ok? {
          EvalMono(fuel, more, env, x.res, y.res, y.cache);
        }
      }
    }
  }

  /** Nock 3 and 4: one subformula, then a test or an increment. */
  lemma {:induction false} MonoOne(fuel: nat, more: nat, env: Env, s: Noun, arg: Noun, cache: Cache)
    requires fuel <= more
    requires !Eval3(fuel, env, s, arg, cache).OutOfFuel? || !Eval4(fuel, env, s, arg, cache).OutOfFuel?
    ensures !Eval3(fuel, env, s, arg, cache).OutOfFuel? ==> Eval3(more, env, s, arg, cache) == Eval3(fuel, env, s, arg, cache)
    ensures !Eval4(fuel, env, s, arg, cache).OutOfFuel? ==> Eval4(more, env, s, arg, cache) == Eval4(fuel, env, s, arg, cache)
    decreases fuel, 1
  {
    EvalMono(fuel, more, env, s, arg, cache);
  }

  lemma {:induction false} Mono5(fuel: nat, more: nat, env: Env, s: Noun, arg: Noun, cache: Cache)
    requires fuel <= more && !Eval5(fuel, env, s, arg, cache).OutOfFuel?
    ensures Eval5(more, env, s, arg, cache) == Eval5(fuel, env, s, arg, cache)
    decreases fuel, 1
  {
    if arg.Cell? {
      var x := Eval(fuel, env, s, arg.h, cache);
      EvalMono(fuel, more, env, s, arg.h, cache);
      if x.Ok? {
        EvalMono(fuel, more, env, s, arg.t, x.cache);
      }
    }
  }

  lemma {:induction false} Mono6(fuel: nat, more: nat, env: Env, s: Noun, arg: Noun, cache: Cache)
    requires fuel <= more && !Eval6(fuel, env, s, arg, cache).OutOfFuel?
    ensures Eval6(more, env, s, arg, cache) == Eval6(fuel, env, s, arg, cache)
    decreases fuel, 1
  {
    if arg.Cell? && arg.t.Cell? {
      var x := Eval(fuel, env, s, arg.h, cache);
      EvalMono(fuel, more, env, s, arg.h, cache);
      if x.Ok? && x.res == Atom(0) {
        EvalMono(fuel, more, env, s, arg.t.h, x.cache);
      } else if x.Ok? && x.res == Atom(1) {
        EvalMono(fuel, more, env, s, arg.t.t, x.cache);
      }
    }
  }

  /** Nock 7 and 8: one subformula, then the second against a new subject. */
  lemma {:induction false} Mono78(fuel: nat, more: nat, env: Env, s: Noun, arg: Noun, cache: Cache)
    requires fuel <= more
    requires !Eval7(fuel, env, s, arg, cache).OutOfFuel? || !Eval8(fuel, env, s, arg, cache).OutOfFuel?
    ensures !Eval7(fuel, env, s, arg, cache).OutOfFuel? ==> Eval7(more, env, s, arg, cache) == Eval7(fuel, env, s, arg, cache)
    ensures !Eval8(fuel, env, s, arg, cache).OutOfFuel? ==> Eval8(more, env, s, arg, cache) == Eval8(fuel, env, s, arg, cache)
    decreases fuel, 1
  {
    if arg.Cell? {
      var x := Eval(fuel, env, s, arg.h, cache);
      EvalMono(fuel, more, env, s, arg.h, cache);
      if x.Ok? {
        if !Eval7(fuel, env, s, arg, cache).OutOfFuel? {
          EvalMono(fuel, more, env, x.res, arg.t, x.cache);
        }
        if !Eval8(fuel, env, s, arg, cache).OutOfFuel? {
          EvalMono(fuel, more, env, Cell(x.res, s), arg.t, x.cache);
        }
      }
    }
  }

  lemma {:induction false} Mono9(fuel: nat, more: nat, env: Env, s: Noun, arg: Noun, cache: Cache)
    requires fuel <= more && !Eval9(fuel, env, s, arg, cache).OutOfFuel?
    ensures Eval9(more, env, s, arg, cache) == Eval9(fuel, env, s, arg, cache)
    decreases fuel, 1
  {
    if arg.Cell? {
      var core := Eval(fuel, env, s, arg.t, cache);
      EvalMono(fuel, more, env, s, arg.t, cache);
      if core.Ok? && arg.h.Atom? && Slot(core.res, arg.h.n).Some? {
        EvalMono(fuel, more, env, core.res, Slot(core.res, arg.h.n).value, core.cache);
      }
    }
  }

  lemma {:induction false} Mono10(fuel: nat, more: nat, env: Env, s: Noun, arg: Noun, cache: Cache)
    requires fuel <= more && !Eval10(fuel, env, s, arg, cache).OutOfFuel?
    ensures Eval10(more, env, s, arg, cache) == Eval10(fuel, env, s, arg, cache)
    decreases fuel, 1
  {
    if arg.Cell? && arg.h.Cell? {
      var t := Eval(fuel, env, s, arg.t, cache);
      EvalMono(fuel, more, env, s, arg.t, cache);
      if t.Ok? {
        EvalMono(fuel, more, env, s, arg.h.t, t.cache);
      }
    }
  }

  lemma {:induction false} Mono11(fuel: nat, more: nat, env: Env, s: Noun, arg: Noun, cache: Cache)
    requires fuel <= more && !Eval11(fuel, env, s, arg, cache).OutOfFuel?
    ensures Eval11(more, env, s, arg, cache) == Eval11(fuel, env, s, arg, cache)
    decreases fuel, 1
  {
    if arg.Cell? {
      var hint, body := arg.h, arg.t;
      if hint.Cell? {
        if PreHint(env, s, hint, body, cache).None? {
          var clue := Eval(fuel, env, s, hint.t, cache);
          EvalMono(fuel, more, env, s, hint.t, cache);
          if clue.Ok? {
            EvalMono(fuel, more, env, s, body, clue.cache);
          }
        }
      } else {
        EvalMono(fuel, more, env, s, body, cache);
      }
    }
  }

  // ---------------------------------------------------------------------
  // Opcode laws.

  /** An atom formula, an opcode above 11 and a malformed argument all
      crash. */
  lemma CrashCases(fuel: nat, env: Env, s: Noun, f: Noun, cache: Cache)
    requires fuel > 0
    ensures f.Atom? ==> Eval(fuel, env, s, f, cache) == Crash
    ensures f.Cell? && f.h.Atom? && f.h.n > 11 ==> Eval(fuel, env, s, f, cache) == Crash
    ensures f.Cell? && f.h.Atom? && f.h.n in {2, 5, 7, 8, 9, 11} && f.t.Atom? ==> Eval(fuel, env, s, f, cache) == Crash
    ensures f.Cell? && f.h.Atom? && f.h.n in {0} && f.t.Cell? ==> Eval(fuel, env, s, f, cache) == Crash
  {
  }

  /** Autocons: a formula whose head is a cell produces the cell of the two
      products, the head computed first. */
  lemma Autocons(fuel: nat, env: Env, s: Noun, b: Noun, c: Noun, d: Noun, cache: Cache)
    requires fuel > 0
    ensures var r := Eval(fuel, env, s, Cell(Cell(b, c), d), cache);
      var h := Eval(fuel - 1, env, s, Cell(b, c), cache);
      && (r.Ok? <==> h.Ok? && Eval(fuel - 1, env, s, d, h.cache).Ok?)
      && (r.Ok? ==> r.res == Cell(h.res, Eval(fuel - 1, env, s, d, h.cache).res))
  {
  }

  /** Nock 3: 0 exactly when the product is a cell, 1 exactly when it is an
      atom. */
  lemma Nock3(fuel: nat, env: Env, s: Noun, b: Noun, cache: Cache)
    requires fuel > 0
    ensures var r := Eval(fuel, env, s, Op(3, b), cache);
      var x := Eval(fuel - 1, env, s, b, cache);
      && (r.Ok? <==> x.Ok?)
      && (r.Ok? ==> (r.res == Atom(0) <==> x.res.Cell?) && (r.res == Atom(1) <==> x.res.Atom?))
  {
  }

  /** Nock 5: 0 exactly when the two products are equal, otherwise 1. */
  lemma Nock5(fuel: nat, env: Env, s: Noun, b: Noun, c: Noun, cache: Cache)
    requires fuel > 0
    ensures var r := Eval(fuel, env, s, Op(5, Cell(b, c)), cache);
      var x := Eval(fuel - 1, env, s, b, cache);
      && (!x.Ok? ==> r == x)
      && (x.Ok? ==>
            var y := Eval(fuel - 1, env, s, c, x.cache);
            && (r.Ok? <==> y.Ok?)
            && (r.Ok? ==> (r.res == Atom(0) <==> x.res == y.res) && (r.res == Atom(1) <==> x.res != y.res)))
  {
  }

  /** Nock 6: the test runs first and then exactly one branch; the other
      branch may be anything. A test product other than 0 or 1 crashes. */
  lemma Nock6(fuel: nat, env: Env, s: Noun, b: Noun, c: Noun, d: Noun, cache: Cache, other: Noun)
    requires fuel > 0
    ensures var x := Eval(fuel - 1, env, s, b, cache);
      && (x.Ok? && x.res == Atom(0) ==>
            Eval(fuel, env, s, Op(6, Cell(b, Cell(c, d))), cache) == Eval(fuel - 1, env, s, c, x.cache)
            && Eval(fuel, env, s, Op(6, Cell(b, Cell(c, other))), cache) == Eval(fuel - 1, env, s, c, x.cache))
      && (x.Ok? && x.res == Atom(1) ==>
            Eval(fuel, env, s, Op(6, Cell(b, Cell(c, d))), cache) == Eval(fuel - 1, env, s, d, x.cache)
            && Eval(fuel, env, s, Op(6, Cell(b, Cell(other, d))), cache) == Eval(fuel - 1, env, s, d, x.cache))
      && (x.Ok? && x.res != Atom(0) && x.res != Atom(1) ==> Eval(fuel, env, s, Op(6, Cell(b, Cell(c, d))), cache) == Crash)
      && (!x.Ok? ==> Eval(fuel, env, s, Op(6, Cell(b, Cell(c, d))), cache) == x)
  {
  }

  /** Nock 9: the arm at axis `b` of the core `*[s c]` runs against the
      core itself. */
  lemma Nock9(fuel: nat, env: Env, s: Noun, b: nat, c: Noun, cache: Cache)
    requires fuel > 0
    ensures var core := Eval(fuel - 1, env, s, c, cache);
      core.Ok? && Slot(core.res, b).Some? ==>
        Eval(fuel, env, s, Op(9, Cell(Atom(b), c)), cache) == Eval(fuel - 1, env, core.res, Slot(core.res, b).value, core.cache)
  {
  }

  // ---------------------------------------------------------------------
  // Hints.

  /** A static (atom) hint is transparent: the product is the body's, with
      one unit of fuel for the hint. */
  lemma StaticHint(fuel: nat, env: Env, s: Noun, hint: nat, body: Noun, cache: Cache)
    requires fuel > 0
    ensures Eval(fuel, env, s, Op(11, Cell(Atom(hint), body)), cache) == Eval(fuel - 1, env, s, body, cache)
  {
    var r := Eval(fuel - 1, env, s, body, cache);
    if r.Ok? {
      assert forall k :: Lookup(PostHinted(env, s, Atom(hint), body, r.res, r.cache), env.mug, k) == Lookup(r.cache, env.mug, k);
      assert PostHinted(env, s, Atom(hint), body, r.res, r.cache) == r.cache;
    }
  }

  /** A dynamic hint whose tag is neither %memo nor %sham computes its clue,
      then the body; the product is the body's, with the cache the clue
      left. */
  lemma UnknownHint(fuel: nat, env: Env, s: Noun, tag: Noun, clue: Noun, body: Noun, cache: Cache)
    requires fuel > 0
    requires Tag(Cell(tag, clue)) != Some(TAS_MEMO) && Tag(Cell(tag, clue)) != Some(TAS_SHAM)
    ensures var c := Eval(fuel - 1, env, s, clue, cache);
      && (c.Ok? ==> Eval(fuel, env, s, Op(11, Cell(Cell(tag, clue), body)), cache) == Eval(fuel - 1, env, s, body, c.cache))
      && (!c.Ok? ==> Eval(fuel, env, s, Op(11, Cell(Cell(tag, clue), body)), cache) == c)
  {
    var c := Eval(fuel - 1, env, s, clue, cache);
    if c.Ok? {
      var r := Eval(fuel - 1, env, s, body, c.cache);
      if r.Ok? {
        assert PostHinted(env, s, Cell(tag, clue), body, r.res, r.cache) == r.cache;
      }
    }
  }

  /** The %memo hint on `body`. */
  function Memo(clue: Noun, body: Noun): Noun
  {
    Op(11, Cell(Cell(Atom(TAS_MEMO), clue), body))
  }

  /** A %memo cache hit on [subject body] is the product, and nothing runs. */
  lemma MemoHit(fuel: nat, env: Env, s: Noun, clue: Noun, body: Noun, cache: Cache, v: Noun)
    requires fuel > 0 && Lookup(cache, env.mug, Cell(s, body)) == Some(v)
    ensures Eval(fuel, env, s, Memo(clue, body), cache) == Ok(v, cache)
  {
  }

  /** On a miss, once the body has run, the cache maps [subject body] to
      its product and every other key as before. */
  lemma MemoStores(fuel: nat, env: Env, s: Noun, clue: Noun, body: Noun, cache: Cache)
    requires fuel > 0 && Lookup(cache, env.mug, Cell(s, body)).None?
    requires Eval(fuel, env, s, Memo(clue, body), cache).Ok?
    ensures var r := Eval(fuel, env, s, Memo(clue, body), cache);
      var c := Eval(fuel - 1, env, s, clue, cache);
      && c.Ok?
      && var b := Eval(fuel - 1, env, s, body, c.cache);
      && b.Ok? && r.res == b.res
      && forall k :: Lookup(r.cache, env.mug, k) == if k == Cell(s, body) then Some(b.res) else Lookup(b.cache, env.mug, k)
  {
  }

  /** Memoisation within one evaluation: a %memo formula evaluated again
      with the cache its first evaluation left is answered from the cache
      with the same product. */
  lemma MemoRepeat(fuel: nat, again: nat, env: Env, s: Noun, clue: Noun, body: Noun, cache: Cache)
    requires fuel > 0 && again > 0
    requires Eval(fuel, env, s, Memo(clue, body), cache).Ok?
    ensures var r := Eval(fuel, env, s, Memo(clue, body), cache);
      Eval(again, env, s, Memo(clue, body), r.cache) == r
  {
    var r := Eval(fuel, env, s, Memo(clue, body), cache);
    match Lookup(cache, env.mug, Cell(s, body))
    case Some(v) =>
      MemoHit(fuel, env, s, clue, body, cache, v);
      MemoHit(again, env, s, clue, body, cache, v);
    case None =>
      MemoStores(fuel, env, s, clue, body, cache);
      MemoHit(again, env, s, clue, body, r.cache, r.res);
  }
}
