/** The Nock reduction engine of rust/ares/src/interpreter.rs, in two layers.

    `Eval` is a recursive reference evaluator over a fuel bound: Nock 4K's
    reduction rules with the engine's own crash points, evaluation order,
    hint handling and memo cache. The engine itself does not recurse: it runs
    an explicit work stack of saved nouns and encoded `NockWork` tags, two
    registers (`subject`, `res`), frames holding locals 1 and 2, and the memo
    cache. `PushFormula` is `push_formula`; `Step` is one pass of the loop,
    which pops a tag and performs its arm (`Exec`, an `Effect`); `Interpret`
    is the loop, run by `Drive` over any pass function. The simulation
    theorem relating the two layers is in module InterpreterSim. */
module Interpreter {
  import opened Nouns
  import opened Axis
  import opened Atoms
  import opened Bits32
  import opened Hamt
  import opened HamtFacts

  /** The memo cache: a persistent HAMT from [subject formula] to results. */
  type Cache = m: HamtMap<Noun> | CacheShaped(m) witness Empty()

  /** The cache's root is a well-shaped stem at depth 0. Stated through a
      quantifier over the depth so that the shape is only unfolded where a
      lookup or an insert asks for it. */
  ghost predicate CacheShaped(m: HamtMap<Noun>)
  {
    forall d: nat | d == 0 :: Shaped(m.root, d)
  }

  /** The frame tag the cache's buffers carry. Every frame pop preserves the
      cache into the frame below, which the model treats as the identity, so
      all its buffers are taken to live in the interpreter's outer frame. */
  const CACHE_FRAME: nat := 1

  /** What the engine gets from outside: the key hash of the cache, and the
      %sham jet dispatch (jet name, subject) that either returns a value or
      falls through to the hinted formula. */
  datatype Env = Env(mug: Mug, sham: (Noun, Noun) -> Option<Noun>)

  // ---------------------------------------------------------------------
  // The reference evaluator.

  datatype Outcome = Ok(res: Noun, cache: Cache) | Crash | OutOfFuel

  /** `*[s f]` with the memo cache threaded through; every `panic!` of the
      engine is `Crash`. */
  function Eval(fuel: nat, env: Env, s: Noun, f: Noun, cache: Cache): Outcome
    decreases fuel, 0
  {
    if fuel == 0 then OutOfFuel
    else
      match f
      case Atom(_) => Crash  // atoms are not formulas
      case Cell(op, arg) =>
        if op.Cell? then EvalCons(fuel - 1, env, s, op, arg, cache)
        else if op.n == 0 then Eval0(s, arg, cache)
        else if op.n == 1 then Ok(arg, cache)
        else if op.n == 2 then Eval2(fuel - 1, env, s, arg, cache)
        else if op.n == 3 then Eval3(fuel - 1, env, s, arg, cache)
        else if op.n == 4 then Eval4(fuel - 1, env, s, arg, cache)
        else if op.n == 5 then Eval5(fuel - 1, env, s, arg, cache)
        else if op.n == 6 then Eval6(fuel - 1, env, s, arg, cache)
        else if op.n == 7 then Eval7(fuel - 1, env, s, arg, cache)
        else if op.n == 8 then Eval8(fuel - 1, env, s, arg, cache)
        else if op.n == 9 then Eval9(fuel - 1, env, s, arg, cache)
        else if op.n == 10 then Eval10(fuel - 1, env, s, arg, cache)
        else if op.n == 11 then Eval11(fuel - 1, env, s, arg, cache)
        else Crash  // invalid opcode
  }

  /** Autocons: `*[s [b c] d] = [*[s b c] *[s d]]`, head first. */
  function EvalCons(fuel: nat, env: Env, s: Noun, hf: Noun, tf: Noun, cache: Cache): Outcome
    decreases fuel, 1
  {
    var h := Eval(fuel, env, s, hf, cache);
    if !h.Ok? then h
    else
      var t := Eval(fuel, env, s, tf, h.cache);
      if !t.Ok? then t else Ok(Cell(h.res, t.res), t.cache)
  }

  /** `*[s 0 b] = /[b s]`; the axis must be an atom. */
  function Eval0(s: Noun, arg: Noun, cache: Cache): Outcome
  {
    if !arg.Atom? then Crash
    else
      match Slot(s, arg.n)
      case None => Crash
      case Some(x) => Ok(x, cache)
  }

  /** `*[s 2 b c] = *[*[s b] *[s c]]`. */
  function Eval2(fuel: nat, env: Env, s: Noun, arg: Noun, cache: Cache): Outcome
    decreases fuel, 1
  {
    if !arg.Cell? then Crash
    else
      var x := Eval(fuel, env, s, arg.h, cache);
      if !x.Ok? then x
      else
        var y := Eval(fuel, env, s, arg.t, x.cache);
        if !y.Ok? then y else Eval(fuel, env, x.res, y.res, y.cache)
  }

  /** `*[s 3 b]`: 0 when the product is a cell, 1 when it is an atom. */
  function Eval3(fuel: nat, env: Env, s: Noun, arg: Noun, cache: Cache): Outcome
    decreases fuel, 1
  {
    var x := Eval(fuel, env, s, arg, cache);
    if !x.Ok? then x else Ok(Atom(if x.res.Cell? then 0 else 1), x.cache)
  }

  /** `*[s 4 b] = +*[s b]`; a cell cannot be incremented. */
  function Eval4(fuel: nat, env: Env, s: Noun, arg: Noun, cache: Cache): Outcome
    decreases fuel, 1
  {
    var x := Eval(fuel, env, s, arg, cache);
    if !x.Ok? then x
    else if x.res.Cell? then Crash
    else Ok(Atom(x.res.n + 1), x.cache)
  }

  /** `*[s 5 b c]`: 0 when the two products are equal, 1 otherwise. */
  function Eval5(fuel: nat, env: Env, s: Noun, arg: Noun, cache: Cache): Outcome
    decreases fuel, 1
  {
    if !arg.Cell? then Crash
    else
      var x := Eval(fuel, env, s, arg.h, cache);
      if !x.Ok? then x
      else
        var y := Eval(fuel, env, s, arg.t, x.cache);
        if !y.Ok? then y else Ok(Atom(if x.res == y.res then 0 else 1), y.cache)
  }

  /** `*[s 6 b c d]`: the test first, then exactly one branch; a test
      product other than 0 or 1 crashes. */
  function Eval6(fuel: nat, env: Env, s: Noun, arg: Noun, cache: Cache): Outcome
    decreases fuel, 1
  {
    if !arg.Cell? || !arg.t.Cell? then Crash
    else
      var x := Eval(fuel, env, s, arg.h, cache);
      if !x.Ok? then x
      else if x.res == Atom(0) then Eval(fuel, env, s, arg.t.h, x.cache)
      else if x.res == Atom(1) then Eval(fuel, env, s, arg.t.t, x.cache)
      else Crash
  }

  /** `*[s 7 b c] = *[*[s b] c]`. */
  function Eval7(fuel: nat, env: Env, s: Noun, arg: Noun, cache: Cache): Outcome
    decreases fuel, 1
  {
    if !arg.Cell? then Crash
    else
      var x := Eval(fuel, env, s, arg.h, cache);
      if !x.Ok? then x else Eval(fuel, env, x.res, arg.t, x.cache)
  }

  /** `*[s 8 b c] = *[[*[s b] s] c]`. */
  function Eval8(fuel: nat, env: Env, s: Noun, arg: Noun, cache: Cache): Outcome
    decreases fuel, 1
  {
    if !arg.Cell? then Crash
    else
      var x := Eval(fuel, env, s, arg.h, cache);
      if !x.Ok? then x else Eval(fuel, env, Cell(x.res, s), arg.t, x.cache)
  }

  /** `*[s 9 b c] = *[*[s c] 0 b]` taken as a formula against the core
      `*[s c]`; the core is computed before the axis is checked. */
  function Eval9(fuel: nat, env: Env, s: Noun, arg: Noun, cache: Cache): Outcome
    decreases fuel, 1
  {
    if !arg.Cell? then Crash
    else
      var core := Eval(fuel, env, s, arg.t, cache);
      if !core.Ok? then core
      else if !arg.h.Atom? then Crash  // the axis into the core must be an atom
      else
        match Slot(core.res, arg.h.n)
        case None => Crash
        case Some(g) => Eval(fuel, env, core.res, g, core.cache)
  }

  /** `*[s 10 [b c] d] = #[b *[s c] *[s d]]`: the tree `d` first, then the
      patch `c`, and only then is the axis checked. */
  function Eval10(fuel: nat, env: Env, s: Noun, arg: Noun, cache: Cache): Outcome
    decreases fuel, 1
  {
    if !arg.Cell? || !arg.h.Cell? then Crash
    else
      var t := Eval(fuel, env, s, arg.t, cache);
      if !t.Ok? then t
      else
        var p := Eval(fuel, env, s, arg.h.t, t.cache);
        if !p.Ok? then p
        else if !arg.h.h.Atom? then Crash  // the axis into the tree must be an atom
        else
          match Edit(arg.h.h.n, p.res, t.res)
          case None => Crash
          case Some(x) => Ok(x, p.cache)
  }

  /** `*[s 11 b d]`: a dynamic hint `b = [tag clue]` may answer before
      anything runs (a %memo cache hit or a %sham jet); otherwise the clue
      and then the body `d` are computed, and a %memo hint records the
      body's product. A static (atom) hint evaluates the body only. */
  function Eval11(fuel: nat, env: Env, s: Noun, arg: Noun, cache: Cache): Outcome
    decreases fuel, 1
  {
    if !arg.Cell? then Crash
    else
      var hint, body := arg.h, arg.t;
      if hint.Cell? then
        match PreHint(env, s, hint, body, cache)
        case Some(v) => Ok(v, cache)
        case None =>
          var clue := Eval(fuel, env, s, hint.t, cache);
          if !clue.Ok? then clue
          else
            match PostHint(hint, clue.res)
            case Some(v) => Ok(v, clue.cache)
            case None =>
              var r := Eval(fuel, env, s, body, clue.cache);
              if !r.Ok? then r else Ok(r.res, PostHinted(env, s, hint, body, r.res, r.cache))
      else
        var r := Eval(fuel, env, s, body, cache);
        if !r.Ok? then r else Ok(r.res, PostHinted(env, s, hint, body, r.res, r.cache))
  }

  // ---------------------------------------------------------------------
  // The hint matchers.

  function Tag(hint: Noun): Option<nat>
  {
    if hint.Cell? && hint.h.Atom? && hint.h.n <= DIRECT_MAX then Some(hint.h.n) else None
  }

  /** `match_pre_hint`: the result of a dynamic hint that applies before the
      formula runs; `None` is the source's `Err(())`. The tag must be a
      direct atom. A %memo hint looks [subject formula] up in the cache. */
  function PreHint(env: Env, subject: Noun, hint: Noun, formula: Noun, cache: Cache): (r: Option<Noun>)
    requires hint.Cell?
    ensures Tag(hint) == Some(TAS_MEMO) ==> r == Lookup(cache, env.mug, Cell(subject, formula))
    ensures Tag(hint) != Some(TAS_MEMO) && Tag(hint) != Some(TAS_SHAM) ==> r.None?
  {
    if Tag(hint) == Some(TAS_SHAM) then
      if hint.t.Cell? then env.sham(hint.t.t, subject) else None
    else if Tag(hint) == Some(TAS_MEMO) then Lookup(cache, env.mug, Cell(subject, formula))
    else None
  }

  /** `match_post_hint`: the result of a dynamic hint once its clue has
      been computed to `clue`, before the body runs. Every arm returns
      `Err(())`: a %slog hint (printing the [priority tank] clue) falls
      through like every other tag, so the body always runs. */
  function PostHint(hint: Noun, clue: Noun): (r: Option<Noun>)
    ensures r.None?
  {
    if Tag(hint) == Some(TAS_SLOG) then None  // the clue goes to the log
    else None
  }

  /** `match_post_hinted`: after the body of a %memo hint has run, the cache
      maps [subject formula] to its product; any other hint leaves the cache
      as it was. */
  function PostHinted(env: Env, subject: Noun, hint: Noun, formula: Noun, res: Noun, cache: Cache): (r: Cache)
    ensures forall k ::
              Lookup(r, env.mug, k)
              == (if Tag(hint) == Some(TAS_MEMO) && k == Cell(subject, formula) then Some(res)
                  else Lookup(cache, env.mug, k))
  {
    if Tag(hint) == Some(TAS_MEMO) then
      var key := Cell(subject, formula);
      forall k
        ensures Lookup(Insert(cache, env.mug, key, res, CACHE_FRAME), env.mug, k)
             == (if k == key then Some(res) else Lookup(cache, env.mug, k))
      {
        LookupInsert(cache, env.mug, key, res, CACHE_FRAME, k);
      }
      Insert(cache, env.mug, key, res, CACHE_FRAME)
    else cache
  }

  // ---------------------------------------------------------------------
  // The machine.

  datatype Work =
    | Done
    | NockCellComputeHead | NockCellComputeTail | NockCellCons
    | Nock0Axis | Nock1Constant
    | Nock2ComputeSubject | Nock2ComputeFormula | Nock2ComputeResult | Nock2RestoreSubject
    | Nock3ComputeChild | Nock3ComputeType
    | Nock4ComputeChild | Nock4Increment
    | Nock5ComputeLeftChild | Nock5ComputeRightChild | Nock5TestEquals
    | Nock6ComputeTest | Nock6ComputeBranch | Nock6Done
    | Nock7ComputeSubject | Nock7ComputeResult | Nock7RestoreSubject
    | Nock8ComputeSubject | Nock8ComputeResult | Nock8RestoreSubject
    | Nock9ComputeCore | Nock9ComputeResult | Nock9RestoreSubject
    | Nock10ComputeTree | Nock10ComputePatch | Nock10Edit
    | Nock11ComputeHint | Nock11ComputeResult | Nock11Done

  /** The enum's discriminant, in declaration order. */
  function Ord(w: Work): nat
  {
    match w
    case Done => 0
    case NockCellComputeHead => 1
    case NockCellComputeTail => 2
    case NockCellCons => 3
    case Nock0Axis => 4
    case Nock1Constant => 5
    case Nock2ComputeSubject => 6
    case Nock2ComputeFormula => 7
    case Nock2ComputeResult => 8
    case Nock2RestoreSubject => 9
    case Nock3ComputeChild => 10
    case Nock3ComputeType => 11
    case Nock4ComputeChild => 12
    case Nock4Increment => 13
    case Nock5ComputeLeftChild => 14
    case Nock5ComputeRightChild => 15
    case Nock5TestEquals => 16
    case Nock6ComputeTest => 17
    case Nock6ComputeBranch => 18
    case Nock6Done => 19
    case Nock7ComputeSubject => 20
    case Nock7ComputeResult => 21
    case Nock7RestoreSubject => 22
    case Nock8ComputeSubject => 23
    case Nock8ComputeResult => 24
    case Nock8RestoreSubject => 25
    case Nock9ComputeCore => 26
    case Nock9ComputeResult => 27
    case Nock9RestoreSubject => 28
    case Nock10ComputeTree => 29
    case Nock10ComputePatch => 30
    case Nock10Edit => 31
    case Nock11ComputeHint => 32
    case Nock11ComputeResult => 33
    case Nock11Done => 34
  }

  /** `work_to_noun`: a tag is stored on the stack as the direct atom of its
      discriminant. */
  function WorkToNoun(w: Work): Noun
  {
    Atom(Ord(w))
  }

  /** `noun_to_work`: `None` (a panic) for a cell, an indirect atom or a
      value that is no discriminant. */
  function NounToWork(n: Noun): Option<Work>
  {
    if n.Cell? then None
    else
      match n.n
      case 0 => Some(Done)
      case 1 => Some(NockCellComputeHead)
      case 2 => Some(NockCellComputeTail)
      case 3 => Some(NockCellCons)
      case 4 => Some(Nock0Axis)
      case 5 => Some(Nock1Constant)
      case 6 => Some(Nock2ComputeSubject)
      case 7 => Some(Nock2ComputeFormula)
      case 8 => Some(Nock2ComputeResult)
      case 9 => Some(Nock2RestoreSubject)
      case 10 => Some(Nock3ComputeChild)
      case 11 => Some(Nock3ComputeType)
      case 12 => Some(Nock4ComputeChild)
      case 13 => Some(Nock4Increment)
      case 14 => Some(Nock5ComputeLeftChild)
      case 15 => Some(Nock5ComputeRightChild)
      case 16 => Some(Nock5TestEquals)
      case 17 => Some(Nock6ComputeTest)
      case 18 => Some(Nock6ComputeBranch)
      case 19 => Some(Nock6Done)
      case 20 => Some(Nock7ComputeSubject)
      case 21 => Some(Nock7ComputeResult)
      case 22 => Some(Nock7RestoreSubject)
      case 23 => Some(Nock8ComputeSubject)
      case 24 => Some(Nock8ComputeResult)
      case 25 => Some(Nock8RestoreSubject)
      case 26 => Some(Nock9ComputeCore)
      case 27 => Some(Nock9ComputeResult)
      case 28 => Some(Nock9RestoreSubject)
      case 29 => Some(Nock10ComputeTree)
      case 30 => Some(Nock10ComputePatch)
      case 31 => Some(Nock10Edit)
      case 32 => Some(Nock11ComputeHint)
      case 33 => Some(Nock11ComputeResult)
      case 34 => Some(Nock11Done)
      case _ => None
  }

  lemma WorkRoundTrip(w: Work)
    ensures NounToWork(WorkToNoun(w)) == Some(w)
  {
  }

  /** A stack, newest on top: the work stack of nouns and the stack of
      frames. */
  datatype Stack<T> = Bottom | Push(below: Stack<T>, top: T)

  /** The locals 1 and 2 of a frame pushed by `stack.push(3)`; the frame of
      `interpret` itself (`stack.push(0)`) has none, and its unused locals
      are 0 here. */
  datatype Frame = Frame(local1: Noun, local2: Noun)

  datatype Machine = Machine(work: Stack<Noun>, frames: Stack<Frame>, subject: Noun, res: Noun, cache: Cache)

  datatype StepResult = Running(m: Machine) | Halted(res: Noun) | Crashed

  /** `push_formula`: schedule the work of one formula, or crash. Opcodes 2,
      9 and 11 push a frame for their locals. */
  function PushFormula(m: Machine, f: Noun): StepResult
  {
    match f
    case Atom(_) => Crashed  // atoms are not formulas
    case Cell(op, arg) =>
      var w := m.work;
      if op.Cell? then
        Running(m.(work := Push(Push(Push(w, arg), op), WorkToNoun(NockCellComputeHead))))
      else if op.n == 0 then Running(m.(work := Push(Push(w, arg), WorkToNoun(Nock0Axis))))
      else if op.n == 1 then Running(m.(work := Push(Push(w, arg), WorkToNoun(Nock1Constant))))
      else if op.n == 2 then
        if !arg.Cell? then Crashed
        else Running(m.(work := Push(w, WorkToNoun(Nock2ComputeSubject)),
                        frames := Push(m.frames, Frame(arg.h, arg.t))))
      else if op.n == 3 then Running(m.(work := Push(Push(w, arg), WorkToNoun(Nock3ComputeChild))))
      else if op.n == 4 then Running(m.(work := Push(Push(w, arg), WorkToNoun(Nock4ComputeChild))))
      else if op.n == 5 then
        if !arg.Cell? then Crashed
        else Running(m.(work := Push(Push(Push(w, arg.t), arg.h), WorkToNoun(Nock5ComputeLeftChild))))
      else if op.n == 6 then
        if !arg.Cell? || !arg.t.Cell? then Crashed
        else Running(m.(work := Push(Push(Push(Push(w, arg.t.t), arg.t.h), arg.h), WorkToNoun(Nock6ComputeTest))))
      else if op.n == 7 then
        if !arg.Cell? then Crashed
        else Running(m.(work := Push(Push(Push(w, arg.t), arg.h), WorkToNoun(Nock7ComputeSubject))))
      else if op.n == 8 then
        if !arg.Cell? then Crashed
        else Running(m.(work := Push(Push(Push(w, arg.t), arg.h), WorkToNoun(Nock8ComputeSubject))))
      else if op.n == 9 then
        if !arg.Cell? then Crashed
        else Running(m.(work := Push(w, WorkToNoun(Nock9ComputeCore)),
                        frames := Push(m.frames, Frame(arg.h, arg.t))))
      else if op.n == 10 then
        if !arg.Cell? || !arg.h.Cell? then Crashed
        else Running(m.(work := Push(Push(Push(Push(w, arg.h.h), arg.h.t), arg.t), WorkToNoun(Nock10ComputeTree))))
      else if op.n == 11 then
        if !arg.Cell? then Crashed
        else Running(m.(work := Push(w, WorkToNoun(if arg.h.Cell? then Nock11ComputeHint else Nock11ComputeResult)),
                        frames := Push(m.frames, Frame(arg.h, arg.t))))
      else Crashed  // invalid opcode
  }

  /** One pass of the loop: pop the work tag on top of the stack and do what
      it says. A machine with no work or no frame left cannot arise; it
      crashes. */
  function Step(env: Env, m: Machine): StepResult
  {
    if m.work.Bottom? || m.frames.Bottom? then Crashed
    else
      match NounToWork(m.work.top)
      case None => Crashed  // work should always be a direct atom
      case Some(w) => Perform(Exec(env, w, m.(work := m.work.below)))
  }

  /** What the arm of one work tag does: go on with a new state, push a
      formula onto a new state, halt with a product, or crash. */
  datatype Effect = Continue(m: Machine) | Schedule(m: Machine, f: Noun) | Finish(res: Noun) | Fail

  function Perform(e: Effect): StepResult
  {
    match e
    case Continue(m) => Running(m)
    case Schedule(m, f) => PushFormula(m, f)
    case Finish(res) => Halted(res)
    case Fail => Crashed
  }

  /** The work of one tag, with the tag already popped. */
  function Exec(env: Env, w: Work, m: Machine): Effect
    requires m.frames.Push?
  {
    match w
    case Done => Finish(m.res)
    case NockCellComputeHead => ExecCell(w, m)
    case NockCellComputeTail => ExecCell(w, m)
    case NockCellCons => ExecCell(w, m)
    case Nock0Axis => ExecLeaf(w, m)
    case Nock1Constant => ExecLeaf(w, m)
    case Nock2ComputeSubject => Exec2(w, m)
    case Nock2ComputeFormula => Exec2(w, m)
    case Nock2ComputeResult => Exec2(w, m)
    case Nock2RestoreSubject => Exec2(w, m)
    case Nock3ComputeChild => Exec34(w, m)
    case Nock3ComputeType => Exec34(w, m)
    case Nock4ComputeChild => Exec34(w, m)
    case Nock4Increment => Exec34(w, m)
    case Nock5ComputeLeftChild => Exec5(w, m)
    case Nock5ComputeRightChild => Exec5(w, m)
    case Nock5TestEquals => Exec5(w, m)
    case Nock6ComputeTest => Exec6(w, m)
    case Nock6ComputeBranch => Exec6(w, m)
    case Nock6Done => Exec6(w, m)
    case Nock7ComputeSubject => Exec78(w, m)
    case Nock7ComputeResult => Exec78(w, m)
    case Nock7RestoreSubject => Exec78(w, m)
    case Nock8ComputeSubject => Exec78(w, m)
    case Nock8ComputeResult => Exec78(w, m)
    case Nock8RestoreSubject => Exec78(w, m)
    case Nock9ComputeCore => Exec9(w, m)
    case Nock9ComputeResult => Exec9(w, m)
    case Nock9RestoreSubject => Exec9(w, m)
    case Nock10ComputeTree => Exec10(w, m)
    case Nock10ComputePatch => Exec10(w, m)
    case Nock10Edit => Exec10(w, m)
    case Nock11ComputeHint => Exec11(env, w, m)
    case Nock11ComputeResult => Exec11(env, w, m)
    case Nock11Done => Exec11(env, w, m)
  }

  /** Pop the saved formula, push the next tag and push the formula. */
  function Then(m: Machine, next: Work): Effect
  {
    if m.work.Bottom? then Fail
    else Schedule(m.(work := Push(m.work.below, WorkToNoun(next))), m.work.top)
  }

  function ExecCell(w: Work, m: Machine): Effect
  {
    if m.work.Bottom? then Fail
    else
      var top, rest := m.work.top, m.work.below;
      match w
      case NockCellComputeHead => Schedule(m.(work := Push(rest, WorkToNoun(NockCellComputeTail))), top)
      case NockCellComputeTail =>
        Schedule(m.(work := Push(Push(rest, m.res), WorkToNoun(NockCellCons))), top)
      case _ => Continue(m.(work := rest, res := Cell(top, m.res)))  // NockCellCons
  }

  function ExecLeaf(w: Work, m: Machine): Effect
  {
    if m.work.Bottom? then Fail
    else
      var top, rest := m.work.top, m.work.below;
      match w
      case Nock0Axis =>
        if !top.Atom? then Fail  // the axis must be an atom
        else
          (match Slot(m.subject, top.n)
           case None => Fail
           case Some(x) => Continue(m.(work := rest, res := x)))
      case _ => Continue(m.(work := rest, res := top))  // Nock1Constant
  }

  function Exec2(w: Work, m: Machine): Effect
    requires m.frames.Push?
  {
    var fr := m.frames.top;
    match w
    case Nock2ComputeSubject =>
      Schedule(m.(work := Push(m.work, WorkToNoun(Nock2ComputeFormula))), fr.local1)
    case Nock2ComputeFormula =>
      Schedule(m.(work := Push(m.work, WorkToNoun(Nock2ComputeResult)),
                     frames := Push(m.frames.below, fr.(local1 := m.res))), fr.local2)
    case Nock2ComputeResult =>
      Schedule(m.(work := Push(m.work, WorkToNoun(Nock2RestoreSubject)),
                     frames := Push(m.frames.below, fr.(local2 := m.subject)),
                     subject := fr.local1), m.res)
    case _ =>  // Nock2RestoreSubject
      Continue(m.(subject := fr.local2, frames := m.frames.below))
  }

  function Exec34(w: Work, m: Machine): Effect
  {
    match w
    case Nock3ComputeChild => Then(m, Nock3ComputeType)
    case Nock3ComputeType => Continue(m.(res := Atom(if m.res.Cell? then 0 else 1)))
    case Nock4ComputeChild => Then(m, Nock4Increment)
    case _ =>  // Nock4Increment: `inc` on the atom's representation
      if m.res.Cell? then Fail  // cannot increment a cell
      else Continue(m.(res := Atom(Value(Inc(AtomNew(m.res.n))))))
  }

  function Exec5(w: Work, m: Machine): Effect
  {
    if m.work.Bottom? then Fail
    else
      var top, rest := m.work.top, m.work.below;
      match w
      case Nock5ComputeLeftChild => Schedule(m.(work := Push(rest, WorkToNoun(Nock5ComputeRightChild))), top)
      case Nock5ComputeRightChild =>
        Schedule(m.(work := Push(Push(rest, m.res), WorkToNoun(Nock5TestEquals))), top)
      case _ =>  // Nock5TestEquals
        Continue(m.(work := rest, res := Atom(if m.res == top then 0 else 1)))
  }

  function Exec6(w: Work, m: Machine): Effect
  {
    match w
    case Nock6ComputeTest => Then(m, Nock6ComputeBranch)
    case Nock6ComputeBranch =>
      if m.work.Bottom? || m.work.below.Bottom? then Fail
      else
        var yes, no, rest := m.work.top, m.work.below.top, m.work.below.below;
        if m.res == Atom(0) then Schedule(m.(work := Push(rest, WorkToNoun(Nock6Done))), yes)
        else if m.res == Atom(1) then Schedule(m.(work := Push(rest, WorkToNoun(Nock6Done))), no)
        else Fail  // the test must return 0 or 1
    case _ => Continue(m)  // Nock6Done
  }

  function Exec78(w: Work, m: Machine): Effect
  {
    if m.work.Bottom? then Fail
    else
      var top, rest := m.work.top, m.work.below;
      match w
      case Nock7ComputeSubject => Then(m, Nock7ComputeResult)
      case Nock7ComputeResult =>
        Schedule(m.(work := Push(Push(rest, m.subject), WorkToNoun(Nock7RestoreSubject)), subject := m.res), top)
      case Nock8ComputeSubject => Then(m, Nock8ComputeResult)
      case Nock8ComputeResult =>
        Schedule(m.(work := Push(Push(rest, m.subject), WorkToNoun(Nock8RestoreSubject)),
                       subject := Cell(m.res, m.subject)), top)
      case _ => Continue(m.(work := rest, subject := top))  // Nock7/8RestoreSubject
  }

  function Exec9(w: Work, m: Machine): Effect
    requires m.frames.Push?
  {
    var fr := m.frames.top;
    match w
    case Nock9ComputeCore =>
      Schedule(m.(work := Push(m.work, WorkToNoun(Nock9ComputeResult))), fr.local2)
    case Nock9ComputeResult =>
      if !fr.local1.Atom? then Fail  // the axis into the core must be an atom
      else
        (match Slot(m.res, fr.local1.n)
         case None => Fail
         case Some(g) =>
           Schedule(m.(work := Push(m.work, WorkToNoun(Nock9RestoreSubject)),
                          frames := Push(m.frames.below, fr.(local2 := m.subject)),
                          subject := m.res), g))
    case _ =>  // Nock9RestoreSubject
      Continue(m.(subject := fr.local2, frames := m.frames.below))
  }

  function Exec10(w: Work, m: Machine): Effect
  {
    match w
    case Nock10ComputeTree => Then(m, Nock10ComputePatch)
    case Nock10ComputePatch =>
      if m.work.Bottom? || m.work.below.Bottom? then Fail
      else
        var formula, axis, rest := m.work.top, m.work.below.top, m.work.below.below;
        Schedule(m.(work := Push(Push(Push(rest, m.res), axis), WorkToNoun(Nock10Edit))), formula)
    case _ =>  // Nock10Edit
      if m.work.Bottom? || m.work.below.Bottom? then Fail
      else
        var axis, tree, rest := m.work.top, m.work.below.top, m.work.below.below;
        if !axis.Atom? then Fail  // the axis into the tree must be an atom
        else
          match Edit(axis.n, m.res, tree)
          case None => Fail
          case Some(x) => Continue(m.(work := rest, res := x))
  }

  function Exec11(env: Env, w: Work, m: Machine): Effect
    requires m.frames.Push?
  {
    var fr := m.frames.top;
    match w
    case Nock11ComputeHint =>
      if !fr.local1.Cell? then Fail  // a dynamic hint is a cell
      else
        (match PreHint(env, m.subject, fr.local1, fr.local2, m.cache)
         case Some(found) => Continue(m.(res := found, frames := m.frames.below))
         case None =>
           Schedule(m.(work := Push(m.work, WorkToNoun(Nock11ComputeResult))), fr.local1.t))
    case Nock11ComputeResult =>
      (match PostHint(fr.local1, m.res)
       case Some(found) => Continue(m.(res := found, frames := m.frames.below))
       case None => Schedule(m.(work := Push(m.work, WorkToNoun(Nock11Done))), fr.local2))
    case _ =>  // Nock11Done
      Continue(m.(cache := PostHinted(env, m.subject, fr.local1, fr.local2, m.res, m.cache),
                 frames := m.frames.below))
  }

  /** `n` passes of a loop whose pass is `step`, stopping at a halt or a
      crash. */
  function Run(step: Machine -> StepResult, r: StepResult, n: nat): StepResult
    decreases n
  {
    if n == 0 then r
    else
      match r
      case Running(m) => Run(step, step(m), n - 1)
      case _ => r
  }

  /** The pass of `interpret`'s loop. */
  function Loop(env: Env): Machine -> StepResult
  {
    m => Step(env, m)
  }

  /** `interpret`'s loop, stopped after `budget` passes if it has not
      reached `Done` or crashed by then (Nock need not terminate). */
  method Interpret(env: Env, subject: Noun, formula: Noun, budget: nat) returns (r: StepResult)
    ensures r == Run(Loop(env), Start(subject, formula), budget)
  {
    r := Drive(Loop(env), Start(subject, formula), budget);
  }

  /** Run the passes of `step` from `r0`, at most `budget` of them. */
  method Drive(step: Machine -> StepResult, r0: StepResult, budget: nat) returns (r: StepResult)
    ensures r == Run(step, r0, budget)
  {
    r := r0;
    var left := budget;
    while left > 0 && r.Running?
      invariant Run(step, r, left) == Run(step, r0, budget)
      decreases left
    {
      r := step(r.m);
      left := left - 1;
    }
  }

  /** The state `interpret` starts in: a frame of its own, the `Done`
      sentinel, a fresh cache, and the formula pushed. */
  function Start(subject: Noun, formula: Noun): StepResult
  {
    PushFormula(Machine(Push(Bottom, WorkToNoun(Done)), Push(Bottom, Frame(Atom(0), Atom(0))), subject, Atom(0), Empty()), formula)
  }
}
