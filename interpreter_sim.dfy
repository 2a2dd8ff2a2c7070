/** The machine of interpreter.dfy computes what the reference evaluator
    computes: pushing a formula onto any machine state and running the loop
    reaches the same state with the pushed work consumed, the subject and
    the frames restored and `res` and the cache as `Eval` gives them, or
    crashes exactly when `Eval` crashes.

    The lemmas about runs take the loop's pass as a parameter `step` that
    `Models` ties to `Step`; each arm of the loop is used through a lemma
    of its own (`PassDone` ... `Pass11Done`), so that no proof about a run
    has to look inside `Step`. */
module InterpreterSim {
  import opened Nouns
  import opened Axis
  import opened Atoms
  import opened Hamt
  import opened Interpreter

  /** `step` is the pass of the loop (the trigger keeps the fact out of
      proofs that never name `Step`). */
  ghost predicate Models(env: Env, step: Machine -> StepResult)
  {
    forall m {:trigger Step(env, m)} :: step(m) == Step(env, m)
  }

  lemma LoopModels(env: Env)
    ensures Models(env, Loop(env))
  {
  }

  /** After `n` passes from `start`, the machine `m` has the product and the
      cache of `e` (when `e` succeeds) or has crashed (when `e` crashes). */
  ghost predicate Reaches(step: Machine -> StepResult, start: StepResult, n: nat, e: Outcome, m: Machine)
  {
    && (e.Ok? ==> Run(step, start, n) == Running(m.(res := e.res, cache := e.cache)))
    && (e.Crash? ==> Run(step, start, n) == Crashed)
  }

  // ---------------------------------------------------------------------
  // Composing runs.

  lemma {:induction false} RunAdd(step: Machine -> StepResult, r: StepResult, a: nat, b: nat)
    ensures Run(step, r, a + b) == Run(step, Run(step, r, a), b)
    decreases a
  {
    if a > 0 {
      match r
      case Running(m) => RunAdd(step, step(m), a - 1, b);
      case _ =>
    }
  }

  /** A run that has reached `mid` goes on with the pass from `mid`. */
  lemma Chain(step: Machine -> StepResult, r: StepResult, n1: nat, mid: Machine, n2: nat)
    requires Run(step, r, n1) == Running(mid)
    ensures Run(step, r, n1 + 1 + n2) == Run(step, step(mid), n2)
  {
    RunAdd(step, r, n1, 1 + n2);
  }

  /** A halt or a crash is final. */
  lemma Stays(step: Machine -> StepResult, r: StepResult, n1: nat, n2: nat)
    requires !Run(step, r, n1).Running?
    ensures Run(step, r, n1 + n2) == Run(step, r, n1)
  {
    RunAdd(step, r, n1, n2);
  }


  // ---------------------------------------------------------------------
  // The arms of the loop, one tag each, on a machine whose work stack is
  // `k` with the arm's saved nouns and tag on top.
  /** A pass pops the tag on top of the work stack and performs its arm. */
  lemma StepIs(env: Env, m: Machine, k: Stack<Noun>, w: Work)
    requires m.frames.Push?
    ensures Step(env, m.(work := Push(k, WorkToNoun(w)))) == Perform(Exec(env, w, m.(work := k)))
  {
    WorkRoundTrip(w);
  }

  lemma ExecDone(env: Env, m: Machine, k: Stack<Noun>)
    requires m.frames.Push?
    ensures Perform(Exec(env, Done, m.(work := k)))
         == Halted(m.res)
  {
  }

  lemma ExecCellHead(env: Env, m: Machine, k: Stack<Noun>, tf: Noun, hf: Noun)
    requires m.frames.Push?
    ensures Perform(Exec(env, NockCellComputeHead, m.(work := Push(Push(k, tf), hf))))
         == PushFormula(m.(work := Push(Push(k, tf), WorkToNoun(NockCellComputeTail))), hf)
  {
  }

  lemma ExecCellTail(env: Env, m: Machine, k: Stack<Noun>, tf: Noun)
    requires m.frames.Push?
    ensures Perform(Exec(env, NockCellComputeTail, m.(work := Push(k, tf))))
         == PushFormula(m.(work := Push(Push(k, m.res), WorkToNoun(NockCellCons))), tf)
  {
  }

  lemma ExecCellCons(env: Env, m: Machine, k: Stack<Noun>, h: Noun)
    requires m.frames.Push?
    ensures Perform(Exec(env, NockCellCons, m.(work := Push(k, h))))
         == Running(m.(work := k, res := Cell(h, m.res)))
  {
  }

  lemma Exec0(env: Env, m: Machine, k: Stack<Noun>, a: Noun)
    requires m.frames.Push?
    ensures Perform(Exec(env, Nock0Axis, m.(work := Push(k, a))))
         == if !a.Atom? || Slot(m.subject, a.n).None? then Crashed
            else Running(m.(work := k, res := Slot(m.subject, a.n).value))
  {
  }

  lemma Exec1(env: Env, m: Machine, k: Stack<Noun>, a: Noun)
    requires m.frames.Push?
    ensures Perform(Exec(env, Nock1Constant, m.(work := Push(k, a))))
         == Running(m.(work := k, res := a))
  {
  }

  lemma Exec2Subject(env: Env, m: Machine, k: Stack<Noun>)
    requires m.frames.Push?
    ensures Perform(Exec(env, Nock2ComputeSubject, m.(work := k)))
         == PushFormula(m.(work := Push(k, WorkToNoun(Nock2ComputeFormula))), m.frames.top.local1)
  {
  }

  lemma Exec2Formula(env: Env, m: Machine, k: Stack<Noun>)
    requires m.frames.Push?
    ensures Perform(Exec(env, Nock2ComputeFormula, m.(work := k)))
         == PushFormula(m.(work := Push(k, WorkToNoun(Nock2ComputeResult)),
                           frames := Push(m.frames.below, m.frames.top.(local1 := m.res))),
                        m.frames.top.local2)
  {
  }

  lemma Exec2Result(env: Env, m: Machine, k: Stack<Noun>)
    requires m.frames.Push?
    ensures Perform(Exec(env, Nock2ComputeResult, m.(work := k)))
         == PushFormula(m.(work := Push(k, WorkToNoun(Nock2RestoreSubject)),
                           frames := Push(m.frames.below, m.frames.top.(local2 := m.subject)),
                           subject := m.frames.top.local1),
                        m.res)
  {
  }

  /** Nock 2 and Nock 9 restore the subject saved in local 2 and pop the frame. */
  lemma ExecRestoreFrame(env: Env, m: Machine, k: Stack<Noun>, t: Work)
    requires m.frames.Push?
    requires t == Nock2RestoreSubject || t == Nock9RestoreSubject
    ensures Perform(Exec(env, t, m.(work := k)))
         == Running(m.(work := k, subject := m.frames.top.local2, frames := m.frames.below))
  {
  }

  lemma Exec3Type(env: Env, m: Machine, k: Stack<Noun>)
    requires m.frames.Push?
    ensures Perform(Exec(env, Nock3ComputeType, m.(work := k)))
         == Running(m.(work := k, res := Atom(if m.res.Cell? then 0 else 1)))
  {
  }

  lemma Exec4Increment(env: Env, m: Machine, k: Stack<Noun>)
    requires m.frames.Push?
    ensures Perform(Exec(env, Nock4Increment, m.(work := k)))
         == if m.res.Cell? then Crashed else Running(m.(work := k, res := Atom(Value(Inc(AtomNew(m.res.n))))))
  {
  }

  lemma Exec5Left(env: Env, m: Machine, k: Stack<Noun>, c: Noun, b: Noun)
    requires m.frames.Push?
    ensures Perform(Exec(env, Nock5ComputeLeftChild, m.(work := Push(Push(k, c), b))))
         == PushFormula(m.(work := Push(Push(k, c), WorkToNoun(Nock5ComputeRightChild))), b)
  {
  }

  lemma Exec5Right(env: Env, m: Machine, k: Stack<Noun>, c: Noun)
    requires m.frames.Push?
    ensures Perform(Exec(env, Nock5ComputeRightChild, m.(work := Push(k, c))))
         == PushFormula(m.(work := Push(Push(k, m.res), WorkToNoun(Nock5TestEquals))), c)
  {
  }

  lemma Exec5Test(env: Env, m: Machine, k: Stack<Noun>, x: Noun)
    requires m.frames.Push?
    ensures Perform(Exec(env, Nock5TestEquals, m.(work := Push(k, x))))
         == Running(m.(work := k, res := Atom(if x == m.res then 0 else 1)))
  {
  }

  lemma Exec6Branch(env: Env, m: Machine, k: Stack<Noun>, no: Noun, yes: Noun)
    requires m.frames.Push?
    ensures Perform(Exec(env, Nock6ComputeBranch, m.(work := Push(Push(k, no), yes))))
         == if m.res == Atom(0) then PushFormula(m.(work := Push(k, WorkToNoun(Nock6Done))), yes)
            else if m.res == Atom(1) then PushFormula(m.(work := Push(k, WorkToNoun(Nock6Done))), no)
            else Crashed
  {
  }

  lemma Exec6Done(env: Env, m: Machine, k: Stack<Noun>)
    requires m.frames.Push?
    ensures Perform(Exec(env, Nock6Done, m.(work := k)))
         == Running(m.(work := k))
  {
  }

  lemma Exec7Result(env: Env, m: Machine, k: Stack<Noun>, c: Noun)
    requires m.frames.Push?
    ensures Perform(Exec(env, Nock7ComputeResult, m.(work := Push(k, c))))
         == PushFormula(m.(work := Push(Push(k, m.subject), WorkToNoun(Nock7RestoreSubject)), subject := m.res), c)
  {
  }

  lemma Exec8Result(env: Env, m: Machine, k: Stack<Noun>, c: Noun)
    requires m.frames.Push?
    ensures Perform(Exec(env, Nock8ComputeResult, m.(work := Push(k, c))))
         == PushFormula(m.(work := Push(Push(k, m.subject), WorkToNoun(Nock8RestoreSubject)),
                           subject := Cell(m.res, m.subject)), c)
  {
  }

  /** Nock 7 and Nock 8 restore the subject saved on the work stack. */
  lemma ExecRestoreSaved(env: Env, m: Machine, k: Stack<Noun>, saved: Noun, t: Work)
    requires m.frames.Push?
    requires t == Nock7RestoreSubject || t == Nock8RestoreSubject
    ensures Perform(Exec(env, t, m.(work := Push(k, saved))))
         == Running(m.(work := k, subject := saved))
  {
  }

  lemma Exec9Core(env: Env, m: Machine, k: Stack<Noun>)
    requires m.frames.Push?
    ensures Perform(Exec(env, Nock9ComputeCore, m.(work := k)))
         == PushFormula(m.(work := Push(k, WorkToNoun(Nock9ComputeResult))), m.frames.top.local2)
  {
  }

  lemma Exec9Result(env: Env, m: Machine, k: Stack<Noun>)
    requires m.frames.Push?
    ensures Perform(Exec(env, Nock9ComputeResult, m.(work := k)))
         == var fr := m.frames.top;
            if !fr.local1.Atom? || Slot(m.res, fr.local1.n).None? then Crashed
            else PushFormula(m.(work := Push(k, WorkToNoun(Nock9RestoreSubject)),
                                frames := Push(m.frames.below, fr.(local2 := m.subject)),
                                subject := m.res),
                             Slot(m.res, fr.local1.n).value)
  {
  }

  lemma Exec10Patch(env: Env, m: Machine, k: Stack<Noun>, axis: Noun, pf: Noun)
    requires m.frames.Push?
    ensures Perform(Exec(env, Nock10ComputePatch, m.(work := Push(Push(k, axis), pf))))
         == PushFormula(m.(work := Push(Push(Push(k, m.res), axis), WorkToNoun(Nock10Edit))), pf)
  {
  }

  lemma Exec10Edit(env: Env, m: Machine, k: Stack<Noun>, tree: Noun, axis: Noun)
    requires m.frames.Push?
    ensures Perform(Exec(env, Nock10Edit, m.(work := Push(Push(k, tree), axis))))
         == if !axis.Atom? || Edit(axis.n, m.res, tree).None? then Crashed
            else Running(m.(work := k, res := Edit(axis.n, m.res, tree).value))
  {
  }

  lemma Exec11Hint(env: Env, m: Machine, k: Stack<Noun>)
    requires m.frames.Push?
    requires m.frames.top.local1.Cell?
    ensures Perform(Exec(env, Nock11ComputeHint, m.(work := k)))
         == var fr := m.frames.top;
            var pre := PreHint(env, m.subject, fr.local1, fr.local2, m.cache);
            if pre.Some? then Running(m.(work := k, res := pre.value, frames := m.frames.below))
            else PushFormula(m.(work := Push(k, WorkToNoun(Nock11ComputeResult))), fr.local1.t)
  {
  }

  lemma Exec11Result(env: Env, m: Machine, k: Stack<Noun>)
    requires m.frames.Push?
    ensures Perform(Exec(env, Nock11ComputeResult, m.(work := k)))
         == PushFormula(m.(work := Push(k, WorkToNoun(Nock11Done))), m.frames.top.local2)
  {
  }

  lemma Exec11Done(env: Env, m: Machine, k: Stack<Noun>)
    requires m.frames.Push?
    ensures Perform(Exec(env, Nock11Done, m.(work := k)))
         == var fr := m.frames.top;
            Running(m.(work := k, cache := PostHinted(env, m.subject, fr.local1, fr.local2, m.res, m.cache),
                       frames := m.frames.below))
  {
  }

  lemma Exec3Child(env: Env, m: Machine, k: Stack<Noun>, f: Noun)
    requires m.frames.Push?
    ensures Perform(Exec(env, Nock3ComputeChild, m.(work := Push(k, f))))
         == PushFormula(m.(work := Push(k, WorkToNoun(Nock3ComputeType))), f)
  {
  }

  lemma Exec4Child(env: Env, m: Machine, k: Stack<Noun>, f: Noun)
    requires m.frames.Push?
    ensures Perform(Exec(env, Nock4ComputeChild, m.(work := Push(k, f))))
         == PushFormula(m.(work := Push(k, WorkToNoun(Nock4Increment))), f)
  {
  }

  lemma Exec6Test(env: Env, m: Machine, k: Stack<Noun>, f: Noun)
    requires m.frames.Push?
    ensures Perform(Exec(env, Nock6ComputeTest, m.(work := Push(k, f))))
         == PushFormula(m.(work := Push(k, WorkToNoun(Nock6ComputeBranch))), f)
  {
  }

  lemma Exec7Subject(env: Env, m: Machine, k: Stack<Noun>, f: Noun)
    requires m.frames.Push?
    ensures Perform(Exec(env, Nock7ComputeSubject, m.(work := Push(k, f))))
         == PushFormula(m.(work := Push(k, WorkToNoun(Nock7ComputeResult))), f)
  {
  }

  lemma Exec8Subject(env: Env, m: Machine, k: Stack<Noun>, f: Noun)
    requires m.frames.Push?
    ensures Perform(Exec(env, Nock8ComputeSubject, m.(work := Push(k, f))))
         == PushFormula(m.(work := Push(k, WorkToNoun(Nock8ComputeResult))), f)
  {
  }

  lemma Exec10Tree(env: Env, m: Machine, k: Stack<Noun>, f: Noun)
    requires m.frames.Push?
    ensures Perform(Exec(env, Nock10ComputeTree, m.(work := Push(k, f))))
         == PushFormula(m.(work := Push(k, WorkToNoun(Nock10ComputePatch))), f)
  {
  }

  lemma StepDone(env: Env, m: Machine, k: Stack<Noun>)
    requires m.frames.Push?
    ensures Step(env, m.(work := Push(k, WorkToNoun(Done))))
         == Halted(m.res)
  {
    StepIs(env, m, k, Done);
    ExecDone(env, m, k);
  }

  lemma StepCellHead(env: Env, m: Machine, k: Stack<Noun>, tf: Noun, hf: Noun)
    requires m.frames.Push?
    ensures Step(env, m.(work := Push(Push(Push(k, tf), hf), WorkToNoun(NockCellComputeHead))))
         == PushFormula(m.(work := Push(Push(k, tf), WorkToNoun(NockCellComputeTail))), hf)
  {
    StepIs(env, m, Push(Push(k, tf), hf), NockCellComputeHead);
    ExecCellHead(env, m, k, tf, hf);
  }

  lemma StepCellTail(env: Env, m: Machine, k: Stack<Noun>, tf: Noun)
    requires m.frames.Push?
    ensures Step(env, m.(work := Push(Push(k, tf), WorkToNoun(NockCellComputeTail))))
         == PushFormula(m.(work := Push(Push(k, m.res), WorkToNoun(NockCellCons))), tf)
  {
    StepIs(env, m, Push(k, tf), NockCellComputeTail);
    ExecCellTail(env, m, k, tf);
  }

  lemma StepCellCons(env: Env, m: Machine, k: Stack<Noun>, h: Noun)
    requires m.frames.Push?
    ensures Step(env, m.(work := Push(Push(k, h), WorkToNoun(NockCellCons))))
         == Running(m.(work := k, res := Cell(h, m.res)))
  {
    StepIs(env, m, Push(k, h), NockCellCons);
    ExecCellCons(env, m, k, h);
  }

  lemma Step0(env: Env, m: Machine, k: Stack<Noun>, a: Noun)
    requires m.frames.Push?
    ensures Step(env, m.(work := Push(Push(k, a), WorkToNoun(Nock0Axis))))
         == if !a.Atom? || Slot(m.subject, a.n).None? then Crashed
            else Running(m.(work := k, res := Slot(m.subject, a.n).value))
  {
    StepIs(env, m, Push(k, a), Nock0Axis);
    Exec0(env, m, k, a);
  }

  lemma Step1(env: Env, m: Machine, k: Stack<Noun>, a: Noun)
    requires m.frames.Push?
    ensures Step(env, m.(work := Push(Push(k, a), WorkToNoun(Nock1Constant))))
         == Running(m.(work := k, res := a))
  {
    StepIs(env, m, Push(k, a), Nock1Constant);
    Exec1(env, m, k, a);
  }

  lemma Step2Subject(env: Env, m: Machine, k: Stack<Noun>)
    requires m.frames.Push?
    ensures Step(env, m.(work := Push(k, WorkToNoun(Nock2ComputeSubject))))
         == PushFormula(m.(work := Push(k, WorkToNoun(Nock2ComputeFormula))), m.frames.top.local1)
  {
    StepIs(env, m, k, Nock2ComputeSubject);
    Exec2Subject(env, m, k);
  }

  lemma Step2Formula(env: Env, m: Machine, k: Stack<Noun>)
    requires m.frames.Push?
    ensures Step(env, m.(work := Push(k, WorkToNoun(Nock2ComputeFormula))))
         == PushFormula(m.(work := Push(k, WorkToNoun(Nock2ComputeResult)),
                           frames := Push(m.frames.below, m.frames.top.(local1 := m.res))),
                        m.frames.top.local2)
  {
    StepIs(env, m, k, Nock2ComputeFormula);
    Exec2Formula(env, m, k);
  }

  lemma Step2Result(env: Env, m: Machine, k: Stack<Noun>)
    requires m.frames.Push?
    ensures Step(env, m.(work := Push(k, WorkToNoun(Nock2ComputeResult))))
         == PushFormula(m.(work := Push(k, WorkToNoun(Nock2RestoreSubject)),
                           frames := Push(m.frames.below, m.frames.top.(local2 := m.subject)),
                           subject := m.frames.top.local1),
                        m.res)
  {
    StepIs(env, m, k, Nock2ComputeResult);
    Exec2Result(env, m, k);
  }

  lemma StepRestoreFrame(env: Env, m: Machine, k: Stack<Noun>, t: Work)
    requires m.frames.Push?
    requires t == Nock2RestoreSubject || t == Nock9RestoreSubject
    ensures Step(env, m.(work := Push(k, WorkToNoun(t))))
         == Running(m.(work := k, subject := m.frames.top.local2, frames := m.frames.below))
  {
    StepIs(env, m, k, t);
    ExecRestoreFrame(env, m, k, t);
  }

  lemma Step3Type(env: Env, m: Machine, k: Stack<Noun>)
    requires m.frames.Push?
    ensures Step(env, m.(work := Push(k, WorkToNoun(Nock3ComputeType))))
         == Running(m.(work := k, res := Atom(if m.res.Cell? then 0 else 1)))
  {
    StepIs(env, m, k, Nock3ComputeType);
    Exec3Type(env, m, k);
  }

  lemma Step4Increment(env: Env, m: Machine, k: Stack<Noun>)
    requires m.frames.Push?
    ensures Step(env, m.(work := Push(k, WorkToNoun(Nock4Increment))))
         == if m.res.Cell? then Crashed else Running(m.(work := k, res := Atom(Value(Inc(AtomNew(m.res.n))))))
  {
    StepIs(env, m, k, Nock4Increment);
    Exec4Increment(env, m, k);
  }

  lemma Step5Left(env: Env, m: Machine, k: Stack<Noun>, c: Noun, b: Noun)
    requires m.frames.Push?
    ensures Step(env, m.(work := Push(Push(Push(k, c), b), WorkToNoun(Nock5ComputeLeftChild))))
         == PushFormula(m.(work := Push(Push(k, c), WorkToNoun(Nock5ComputeRightChild))), b)
  {
    StepIs(env, m, Push(Push(k, c), b), Nock5ComputeLeftChild);
    Exec5Left(env, m, k, c, b);
  }

  lemma Step5Right(env: Env, m: Machine, k: Stack<Noun>, c: Noun)
    requires m.frames.Push?
    ensures Step(env, m.(work := Push(Push(k, c), WorkToNoun(Nock5ComputeRightChild))))
         == PushFormula(m.(work := Push(Push(k, m.res), WorkToNoun(Nock5TestEquals))), c)
  {
    StepIs(env, m, Push(k, c), Nock5ComputeRightChild);
    Exec5Right(env, m, k, c);
  }

  lemma Step5Test(env: Env, m: Machine, k: Stack<Noun>, x: Noun)
    requires m.frames.Push?
    ensures Step(env, m.(work := Push(Push(k, x), WorkToNoun(Nock5TestEquals))))
         == Running(m.(work := k, res := Atom(if x == m.res then 0 else 1)))
  {
    StepIs(env, m, Push(k, x), Nock5TestEquals);
    Exec5Test(env, m, k, x);
  }

  lemma Step6Branch(env: Env, m: Machine, k: Stack<Noun>, no: Noun, yes: Noun)
    requires m.frames.Push?
    ensures Step(env, m.(work := Push(Push(Push(k, no), yes), WorkToNoun(Nock6ComputeBranch))))
         == if m.res == Atom(0) then PushFormula(m.(work := Push(k, WorkToNoun(Nock6Done))), yes)
            else if m.res == Atom(1) then PushFormula(m.(work := Push(k, WorkToNoun(Nock6Done))), no)
            else Crashed
  {
    StepIs(env, m, Push(Push(k, no), yes), Nock6ComputeBranch);
    Exec6Branch(env, m, k, no, yes);
  }

  lemma Step6Done(env: Env, m: Machine, k: Stack<Noun>)
    requires m.frames.Push?
    ensures Step(env, m.(work := Push(k, WorkToNoun(Nock6Done))))
         == Running(m.(work := k))
  {
    StepIs(env, m, k, Nock6Done);
    Exec6Done(env, m, k);
  }

  lemma Step7Result(env: Env, m: Machine, k: Stack<Noun>, c: Noun)
    requires m.frames.Push?
    ensures Step(env, m.(work := Push(Push(k, c), WorkToNoun(Nock7ComputeResult))))
         == PushFormula(m.(work := Push(Push(k, m.subject), WorkToNoun(Nock7RestoreSubject)), subject := m.res), c)
  {
    StepIs(env, m, Push(k, c), Nock7ComputeResult);
    Exec7Result(env, m, k, c);
  }

  lemma Step8Result(env: Env, m: Machine, k: Stack<Noun>, c: Noun)
    requires m.frames.Push?
    ensures Step(env, m.(work := Push(Push(k, c), WorkToNoun(Nock8ComputeResult))))
         == PushFormula(m.(work := Push(Push(k, m.subject), WorkToNoun(Nock8RestoreSubject)),
                           subject := Cell(m.res, m.subject)), c)
  {
    StepIs(env, m, Push(k, c), Nock8ComputeResult);
    Exec8Result(env, m, k, c);
  }

  lemma StepRestoreSaved(env: Env, m: Machine, k: Stack<Noun>, saved: Noun, t: Work)
    requires m.frames.Push?
    requires t == Nock7RestoreSubject || t == Nock8RestoreSubject
    ensures Step(env, m.(work := Push(Push(k, saved), WorkToNoun(t))))
         == Running(m.(work := k, subject := saved))
  {
    StepIs(env, m, Push(k, saved), t);
    ExecRestoreSaved(env, m, k, saved, t);
  }

  lemma Step9Core(env: Env, m: Machine, k: Stack<Noun>)
    requires m.frames.Push?
    ensures Step(env, m.(work := Push(k, WorkToNoun(Nock9ComputeCore))))
         == PushFormula(m.(work := Push(k, WorkToNoun(Nock9ComputeResult))), m.frames.top.local2)
  {
    StepIs(env, m, k, Nock9ComputeCore);
    Exec9Core(env, m, k);
  }

  lemma Step9Result(env: Env, m: Machine, k: Stack<Noun>)
    requires m.frames.Push?
    ensures Step(env, m.(work := Push(k, WorkToNoun(Nock9ComputeResult))))
         == var fr := m.frames.top;
            if !fr.local1.Atom? || Slot(m.res, fr.local1.n).None? then Crashed
            else PushFormula(m.(work := Push(k, WorkToNoun(Nock9RestoreSubject)),
                                frames := Push(m.frames.below, fr.(local2 := m.subject)),
                                subject := m.res),
                             Slot(m.res, fr.local1.n).value)
  {
    StepIs(env, m, k, Nock9ComputeResult);
    Exec9Result(env, m, k);
  }

  lemma Step10Patch(env: Env, m: Machine, k: Stack<Noun>, axis: Noun, pf: Noun)
    requires m.frames.Push?
    ensures Step(env, m.(work := Push(Push(Push(k, axis), pf), WorkToNoun(Nock10ComputePatch))))
         == PushFormula(m.(work := Push(Push(Push(k, m.res), axis), WorkToNoun(Nock10Edit))), pf)
  {
    StepIs(env, m, Push(Push(k, axis), pf), Nock10ComputePatch);
    Exec10Patch(env, m, k, axis, pf);
  }

  lemma Step10Edit(env: Env, m: Machine, k: Stack<Noun>, tree: Noun, axis: Noun)
    requires m.frames.Push?
    ensures Step(env, m.(work := Push(Push(Push(k, tree), axis), WorkToNoun(Nock10Edit))))
         == if !axis.Atom? || Edit(axis.n, m.res, tree).None? then Crashed
            else Running(m.(work := k, res := Edit(axis.n, m.res, tree).value))
  {
    StepIs(env, m, Push(Push(k, tree), axis), Nock10Edit);
    Exec10Edit(env, m, k, tree, axis);
  }

  lemma Step11Hint(env: Env, m: Machine, k: Stack<Noun>)
    requires m.frames.Push?
    requires m.frames.top.local1.Cell?
    ensures Step(env, m.(work := Push(k, WorkToNoun(Nock11ComputeHint))))
         == var fr := m.frames.top;
            var pre := PreHint(env, m.subject, fr.local1, fr.local2, m.cache);
            if pre.Some? then Running(m.(work := k, res := pre.value, frames := m.frames.below))
            else PushFormula(m.(work := Push(k, WorkToNoun(Nock11ComputeResult))), fr.local1.t)
  {
    StepIs(env, m, k, Nock11ComputeHint);
    Exec11Hint(env, m, k);
  }

  lemma Step11Result(env: Env, m: Machine, k: Stack<Noun>)
    requires m.frames.Push?
    ensures Step(env, m.(work := Push(k, WorkToNoun(Nock11ComputeResult))))
         == PushFormula(m.(work := Push(k, WorkToNoun(Nock11Done))), m.frames.top.local2)
  {
    StepIs(env, m, k, Nock11ComputeResult);
    Exec11Result(env, m, k);
  }

  lemma Step11Done(env: Env, m: Machine, k: Stack<Noun>)
    requires m.frames.Push?
    ensures Step(env, m.(work := Push(k, WorkToNoun(Nock11Done))))
         == var fr := m.frames.top;
            Running(m.(work := k, cache := PostHinted(env, m.subject, fr.local1, fr.local2, m.res, m.cache),
                       frames := m.frames.below))
  {
    StepIs(env, m, k, Nock11Done);
    Exec11Done(env, m, k);
  }

  lemma Step3Child(env: Env, m: Machine, k: Stack<Noun>, f: Noun)
    requires m.frames.Push?
    ensures Step(env, m.(work := Push(Push(k, f), WorkToNoun(Nock3ComputeChild))))
         == PushFormula(m.(work := Push(k, WorkToNoun(Nock3ComputeType))), f)
  {
    StepIs(env, m, Push(k, f), Nock3ComputeChild);
    Exec3Child(env, m, k, f);
  }

  lemma Step4Child(env: Env, m: Machine, k: Stack<Noun>, f: Noun)
    requires m.frames.Push?
    ensures Step(env, m.(work := Push(Push(k, f), WorkToNoun(Nock4ComputeChild))))
         == PushFormula(m.(work := Push(k, WorkToNoun(Nock4Increment))), f)
  {
    StepIs(env, m, Push(k, f), Nock4ComputeChild);
    Exec4Child(env, m, k, f);
  }

  lemma Step6Test(env: Env, m: Machine, k: Stack<Noun>, f: Noun)
    requires m.frames.Push?
    ensures Step(env, m.(work := Push(Push(k, f), WorkToNoun(Nock6ComputeTest))))
         == PushFormula(m.(work := Push(k, WorkToNoun(Nock6ComputeBranch))), f)
  {
    StepIs(env, m, Push(k, f), Nock6ComputeTest);
    Exec6Test(env, m, k, f);
  }

  lemma Step7Subject(env: Env, m: Machine, k: Stack<Noun>, f: Noun)
    requires m.frames.Push?
    ensures Step(env, m.(work := Push(Push(k, f), WorkToNoun(Nock7ComputeSubject))))
         == PushFormula(m.(work := Push(k, WorkToNoun(Nock7ComputeResult))), f)
  {
    StepIs(env, m, Push(k, f), Nock7ComputeSubject);
    Exec7Subject(env, m, k, f);
  }

  lemma Step8Subject(env: Env, m: Machine, k: Stack<Noun>, f: Noun)
    requires m.frames.Push?
    ensures Step(env, m.(work := Push(Push(k, f), WorkToNoun(Nock8ComputeSubject))))
         == PushFormula(m.(work := Push(k, WorkToNoun(Nock8ComputeResult))), f)
  {
    StepIs(env, m, Push(k, f), Nock8ComputeSubject);
    Exec8Subject(env, m, k, f);
  }

  lemma Step10Tree(env: Env, m: Machine, k: Stack<Noun>, f: Noun)
    requires m.frames.Push?
    ensures Step(env, m.(work := Push(Push(k, f), WorkToNoun(Nock10ComputeTree))))
         == PushFormula(m.(work := Push(k, WorkToNoun(Nock10ComputePatch))), f)
  {
    StepIs(env, m, Push(k, f), Nock10ComputeTree);
    Exec10Tree(env, m, k, f);
  }

  // The same arms, for a pass `step` that models `Step`.

  lemma PassDone(env: Env, step: Machine -> StepResult, m: Machine, k: Stack<Noun>)
    requires Models(env, step) && m.frames.Push?
    ensures step(m.(work := Push(k, WorkToNoun(Done))))
         == Halted(m.res)
  {
    StepDone(env, m, k);
  }

  lemma PassCellHead(env: Env, step: Machine -> StepResult, m: Machine, k: Stack<Noun>, tf: Noun, hf: Noun)
    requires Models(env, step) && m.frames.Push?
    ensures step(m.(work := Push(Push(Push(k, tf), hf), WorkToNoun(NockCellComputeHead))))
         == PushFormula(m.(work := Push(Push(k, tf), WorkToNoun(NockCellComputeTail))), hf)
  {
    StepCellHead(env, m, k, tf, hf);
  }

  lemma PassCellTail(env: Env, step: Machine -> StepResult, m: Machine, k: Stack<Noun>, tf: Noun)
    requires Models(env, step) && m.frames.Push?
    ensures step(m.(work := Push(Push(k, tf), WorkToNoun(NockCellComputeTail))))
         == PushFormula(m.(work := Push(Push(k, m.res), WorkToNoun(NockCellCons))), tf)
  {
    StepCellTail(env, m, k, tf);
  }

  lemma PassCellCons(env: Env, step: Machine -> StepResult, m: Machine, k: Stack<Noun>, h: Noun)
    requires Models(env, step) && m.frames.Push?
    ensures step(m.(work := Push(Push(k, h), WorkToNoun(NockCellCons))))
         == Running(m.(work := k, res := Cell(h, m.res)))
  {
    StepCellCons(env, m, k, h);
  }

  lemma Pass0(env: Env, step: Machine -> StepResult, m: Machine, k: Stack<Noun>, a: Noun)
    requires Models(env, step) && m.frames.Push?
    ensures step(m.(work := Push(Push(k, a), WorkToNoun(Nock0Axis))))
         == if !a.Atom? || Slot(m.subject, a.n).None? then Crashed
            else Running(m.(work := k, res := Slot(m.subject, a.n).value))
  {
    Step0(env, m, k, a);
  }

  lemma Pass1(env: Env, step: Machine -> StepResult, m: Machine, k: Stack<Noun>, a: Noun)
    requires Models(env, step) && m.frames.Push?
    ensures step(m.(work := Push(Push(k, a), WorkToNoun(Nock1Constant))))
         == Running(m.(work := k, res := a))
  {
    Step1(env, m, k, a);
  }

  lemma Pass2Subject(env: Env, step: Machine -> StepResult, m: Machine, k: Stack<Noun>)
    requires Models(env, step) && m.frames.Push?
    ensures step(m.(work := Push(k, WorkToNoun(Nock2ComputeSubject))))
         == PushFormula(m.(work := Push(k, WorkToNoun(Nock2ComputeFormula))), m.frames.top.local1)
  {
    Step2Subject(env, m, k);
  }

  lemma Pass2Formula(env: Env, step: Machine -> StepResult, m: Machine, k: Stack<Noun>)
    requires Models(env, step) && m.frames.Push?
    ensures step(m.(work := Push(k, WorkToNoun(Nock2ComputeFormula))))
         == PushFormula(m.(work := Push(k, WorkToNoun(Nock2ComputeResult)),
                           frames := Push(m.frames.below, m.frames.top.(local1 := m.res))),
                        m.frames.top.local2)
  {
    Step2Formula(env, m, k);
  }

  lemma Pass2Result(env: Env, step: Machine -> StepResult, m: Machine, k: Stack<Noun>)
    requires Models(env, step) && m.frames.Push?
    ensures step(m.(work := Push(k, WorkToNoun(Nock2ComputeResult))))
         == PushFormula(m.(work := Push(k, WorkToNoun(Nock2RestoreSubject)),
                           frames := Push(m.frames.below, m.frames.top.(local2 := m.subject)),
                           subject := m.frames.top.local1),
                        m.res)
  {
    Step2Result(env, m, k);
  }

  lemma PassRestoreFrame(env: Env, step: Machine -> StepResult, m: Machine, k: Stack<Noun>, t: Work)
    requires Models(env, step) && m.frames.Push?
    requires t == Nock2RestoreSubject || t == Nock9RestoreSubject
    ensures step(m.(work := Push(k, WorkToNoun(t))))
         == Running(m.(work := k, subject := m.frames.top.local2, frames := m.frames.below))
  {
    StepRestoreFrame(env, m, k, t);
  }

  lemma Pass3Type(env: Env, step: Machine -> StepResult, m: Machine, k: Stack<Noun>)
    requires Models(env, step) && m.frames.Push?
    ensures step(m.(work := Push(k, WorkToNoun(Nock3ComputeType))))
         == Running(m.(work := k, res := Atom(if m.res.Cell? then 0 else 1)))
  {
    Step3Type(env, m, k);
  }

  /** The increment of the atom's representation is the successor. */
  lemma Pass4Increment(env: Env, step: Machine -> StepResult, m: Machine, k: Stack<Noun>)
    requires Models(env, step) && m.frames.Push?
    ensures step(m.(work := Push(k, WorkToNoun(Nock4Increment))))
         == if m.res.Cell? then Crashed else Running(m.(work := k, res := Atom(m.res.n + 1)))
  {
    Step4Increment(env, m, k);
    if m.res.Atom? {
      IncSucc(m.res.n);
    }
  }

  /** `inc` on the representation of `n` represents `n + 1`. */
  lemma IncSucc(n: nat)
    ensures Value(Inc(AtomNew(n))) == n + 1
  {
    IncValue(AtomNew(n));
  }

  lemma Pass5Left(env: Env, step: Machine -> StepResult, m: Machine, k: Stack<Noun>, c: Noun, b: Noun)
    requires Models(env, step) && m.frames.Push?
    ensures step(m.(work := Push(Push(Push(k, c), b), WorkToNoun(Nock5ComputeLeftChild))))
         == PushFormula(m.(work := Push(Push(k, c), WorkToNoun(Nock5ComputeRightChild))), b)
  {
    Step5Left(env, m, k, c, b);
  }

  lemma Pass5Right(env: Env, step: Machine -> StepResult, m: Machine, k: Stack<Noun>, c: Noun)
    requires Models(env, step) && m.frames.Push?
    ensures step(m.(work := Push(Push(k, c), WorkToNoun(Nock5ComputeRightChild))))
         == PushFormula(m.(work := Push(Push(k, m.res), WorkToNoun(Nock5TestEquals))), c)
  {
    Step5Right(env, m, k, c);
  }

  lemma Pass5Test(env: Env, step: Machine -> StepResult, m: Machine, k: Stack<Noun>, x: Noun)
    requires Models(env, step) && m.frames.Push?
    ensures step(m.(work := Push(Push(k, x), WorkToNoun(Nock5TestEquals))))
         == Running(m.(work := k, res := Atom(if x == m.res then 0 else 1)))
  {
    Step5Test(env, m, k, x);
  }

  lemma Pass6Branch(env: Env, step: Machine -> StepResult, m: Machine, k: Stack<Noun>, no: Noun, yes: Noun)
    requires Models(env, step) && m.frames.Push?
    ensures step(m.(work := Push(Push(Push(k, no), yes), WorkToNoun(Nock6ComputeBranch))))
         == if m.res == Atom(0) then PushFormula(m.(work := Push(k, WorkToNoun(Nock6Done))), yes)
            else if m.res == Atom(1) then PushFormula(m.(work := Push(k, WorkToNoun(Nock6Done))), no)
            else Crashed
  {
    Step6Branch(env, m, k, no, yes);
  }

  lemma Pass6Done(env: Env, step: Machine -> StepResult, m: Machine, k: Stack<Noun>)
    requires Models(env, step) && m.frames.Push?
    ensures step(m.(work := Push(k, WorkToNoun(Nock6Done))))
         == Running(m.(work := k))
  {
    Step6Done(env, m, k);
  }

  lemma Pass7Result(env: Env, step: Machine -> StepResult, m: Machine, k: Stack<Noun>, c: Noun)
    requires Models(env, step) && m.frames.Push?
    ensures step(m.(work := Push(Push(k, c), WorkToNoun(Nock7ComputeResult))))
         == PushFormula(m.(work := Push(Push(k, m.subject), WorkToNoun(Nock7RestoreSubject)), subject := m.res), c)
  {
    Step7Result(env, m, k, c);
  }

  lemma Pass8Result(env: Env, step: Machine -> StepResult, m: Machine, k: Stack<Noun>, c: Noun)
    requires Models(env, step) && m.frames.Push?
    ensures step(m.(work := Push(Push(k, c), WorkToNoun(Nock8ComputeResult))))
         == PushFormula(m.(work := Push(Push(k, m.subject), WorkToNoun(Nock8RestoreSubject)),
                           subject := Cell(m.res, m.subject)), c)
  {
    Step8Result(env, m, k, c);
  }

  lemma PassRestoreSaved(env: Env, step: Machine -> StepResult, m: Machine, k: Stack<Noun>, saved: Noun, t: Work)
    requires Models(env, step) && m.frames.Push?
    requires t == Nock7RestoreSubject || t == Nock8RestoreSubject
    ensures step(m.(work := Push(Push(k, saved), WorkToNoun(t))))
         == Running(m.(work := k, subject := saved))
  {
    StepRestoreSaved(env, m, k, saved, t);
  }

  lemma Pass9Core(env: Env, step: Machine -> StepResult, m: Machine, k: Stack<Noun>)
    requires Models(env, step) && m.frames.Push?
    ensures step(m.(work := Push(k, WorkToNoun(Nock9ComputeCore))))
         == PushFormula(m.(work := Push(k, WorkToNoun(Nock9ComputeResult))), m.frames.top.local2)
  {
    Step9Core(env, m, k);
  }

  lemma Pass9Result(env: Env, step: Machine -> StepResult, m: Machine, k: Stack<Noun>)
    requires Models(env, step) && m.frames.Push?
    ensures step(m.(work := Push(k, WorkToNoun(Nock9ComputeResult))))
         == var fr := m.frames.top;
            if !fr.local1.Atom? || Slot(m.res, fr.local1.n).None? then Crashed
            else PushFormula(m.(work := Push(k, WorkToNoun(Nock9RestoreSubject)),
                                frames := Push(m.frames.below, fr.(local2 := m.subject)),
                                subject := m.res),
                             Slot(m.res, fr.local1.n).value)
  {
    Step9Result(env, m, k);
  }

  lemma Pass10Patch(env: Env, step: Machine -> StepResult, m: Machine, k: Stack<Noun>, axis: Noun, pf: Noun)
    requires Models(env, step) && m.frames.Push?
    ensures step(m.(work := Push(Push(Push(k, axis), pf), WorkToNoun(Nock10ComputePatch))))
         == PushFormula(m.(work := Push(Push(Push(k, m.res), axis), WorkToNoun(Nock10Edit))), pf)
  {
    Step10Patch(env, m, k, axis, pf);
  }

  lemma Pass10Edit(env: Env, step: Machine -> StepResult, m: Machine, k: Stack<Noun>, tree: Noun, axis: Noun)
    requires Models(env, step) && m.frames.Push?
    ensures step(m.(work := Push(Push(Push(k, tree), axis), WorkToNoun(Nock10Edit))))
         == if !axis.Atom? || Edit(axis.n, m.res, tree).None? then Crashed
            else Running(m.(work := k, res := Edit(axis.n, m.res, tree).value))
  {
    Step10Edit(env, m, k, tree, axis);
  }

  lemma Pass11Hint(env: Env, step: Machine -> StepResult, m: Machine, k: Stack<Noun>)
    requires Models(env, step) && m.frames.Push?
    requires m.frames.top.local1.Cell?
    ensures step(m.(work := Push(k, WorkToNoun(Nock11ComputeHint))))
         == var fr := m.frames.top;
            var pre := PreHint(env, m.subject, fr.local1, fr.local2, m.cache);
            if pre.Some? then Running(m.(work := k, res := pre.value, frames := m.frames.below))
            else PushFormula(m.(work := Push(k, WorkToNoun(Nock11ComputeResult))), fr.local1.t)
  {
    Step11Hint(env, m, k);
  }

  lemma Pass11Result(env: Env, step: Machine -> StepResult, m: Machine, k: Stack<Noun>)
    requires Models(env, step) && m.frames.Push?
    ensures step(m.(work := Push(k, WorkToNoun(Nock11ComputeResult))))
         == PushFormula(m.(work := Push(k, WorkToNoun(Nock11Done))), m.frames.top.local2)
  {
    Step11Result(env, m, k);
  }

  lemma Pass11Done(env: Env, step: Machine -> StepResult, m: Machine, k: Stack<Noun>)
    requires Models(env, step) && m.frames.Push?
    ensures step(m.(work := Push(k, WorkToNoun(Nock11Done))))
         == var fr := m.frames.top;
            Running(m.(work := k, cache := PostHinted(env, m.subject, fr.local1, fr.local2, m.res, m.cache),
                       frames := m.frames.below))
  {
    Step11Done(env, m, k);
  }

  lemma Pass3Child(env: Env, step: Machine -> StepResult, m: Machine, k: Stack<Noun>, f: Noun)
    requires Models(env, step) && m.frames.Push?
    ensures step(m.(work := Push(Push(k, f), WorkToNoun(Nock3ComputeChild))))
         == PushFormula(m.(work := Push(k, WorkToNoun(Nock3ComputeType))), f)
  {
    Step3Child(env, m, k, f);
  }

  lemma Pass4Child(env: Env, step: Machine -> StepResult, m: Machine, k: Stack<Noun>, f: Noun)
    requires Models(env, step) && m.frames.Push?
    ensures step(m.(work := Push(Push(k, f), WorkToNoun(Nock4ComputeChild))))
         == PushFormula(m.(work := Push(k, WorkToNoun(Nock4Increment))), f)
  {
    Step4Child(env, m, k, f);
  }

  lemma Pass6Test(env: Env, step: Machine -> StepResult, m: Machine, k: Stack<Noun>, f: Noun)
    requires Models(env, step) && m.frames.Push?
    ensures step(m.(work := Push(Push(k, f), WorkToNoun(Nock6ComputeTest))))
         == PushFormula(m.(work := Push(k, WorkToNoun(Nock6ComputeBranch))), f)
  {
    Step6Test(env, m, k, f);
  }

  lemma Pass7Subject(env: Env, step: Machine -> StepResult, m: Machine, k: Stack<Noun>, f: Noun)
    requires Models(env, step) && m.frames.Push?
    ensures step(m.(work := Push(Push(k, f), WorkToNoun(Nock7ComputeSubject))))
         == PushFormula(m.(work := Push(k, WorkToNoun(Nock7ComputeResult))), f)
  {
    Step7Subject(env, m, k, f);
  }

  lemma Pass8Subject(env: Env, step: Machine -> StepResult, m: Machine, k: Stack<Noun>, f: Noun)
    requires Models(env, step) && m.frames.Push?
    ensures step(m.(work := Push(Push(k, f), WorkToNoun(Nock8ComputeSubject))))
         == PushFormula(m.(work := Push(k, WorkToNoun(Nock8ComputeResult))), f)
  {
    Step8Subject(env, m, k, f);
  }

  lemma Pass10Tree(env: Env, step: Machine -> StepResult, m: Machine, k: Stack<Noun>, f: Noun)
    requires Models(env, step) && m.frames.Push?
    ensures step(m.(work := Push(Push(k, f), WorkToNoun(Nock10ComputeTree))))
         == PushFormula(m.(work := Push(k, WorkToNoun(Nock10ComputePatch))), f)
  {
    Step10Tree(env, m, k, f);
  }

  // ---------------------------------------------------------------------
  // The simulation.

  lemma Sim(fuel: nat, env: Env, step: Machine -> StepResult, m: Machine, f: Noun) returns (n: nat)
    requires Models(env, step) && m.frames.Push?
    ensures Reaches(step, PushFormula(m, f), n, Eval(fuel, env, m.subject, f, m.cache), m)
    decreases fuel, 0
  {
    if fuel == 0 {
      return 0;
    }
    match f
    case Atom(_) => n := 0;
    case Cell(op, arg) =>
      if op.Cell? {
        n := SimCons(fuel - 1, env, step, m, op, arg);
      } else if op.n == 0 {
        n := Sim0(env, step, m, op, arg);
      } else if op.n == 1 {
        n := Sim1(env, step, m, op, arg);
      } else if op.n == 2 {
        n := Sim2(fuel - 1, env, step, m, op, arg);
      } else if op.n == 3 {
        n := Sim3(fuel - 1, env, step, m, op, arg);
      } else if op.n == 4 {
        n := Sim4(fuel - 1, env, step, m, op, arg);
      } else if op.n == 5 {
        n := Sim5(fuel - 1, env, step, m, op, arg);
      } else if op.n == 6 {
        n := Sim6(fuel - 1, env, step, m, op, arg);
      } else if op.n == 7 {
        n := Sim7(fuel - 1, env, step, m, op, arg);
      } else if op.n == 8 {
        n := Sim8(fuel - 1, env, step, m, op, arg);
      } else if op.n == 9 {
        n := Sim9(fuel - 1, env, step, m, op, arg);
      } else if op.n == 10 {
        n := Sim10(fuel - 1, env, step, m, op, arg);
      } else if op.n == 11 {
        n := Sim11(fuel - 1, env, step, m, op, arg);
      } else {
        n := 0;
      }
  }

  lemma SimCons(fuel: nat, env: Env, step: Machine -> StepResult, m: Machine, hf: Noun, tf: Noun) returns (n: nat)
    requires Models(env, step) && m.frames.Push?
    requires hf.Cell?
    ensures Reaches(step, PushFormula(m, Cell(hf, tf)), n, EvalCons(fuel, env, m.subject, hf, tf, m.cache), m)
    decreases fuel, 1
  {
    var k := m.work;
    var m1 := m.(work := Push(Push(Push(k, tf), hf), WorkToNoun(NockCellComputeHead)));
    assert PushFormula(m, Cell(hf, tf)) == Running(m1);
    var m2 := m.(work := Push(Push(k, tf), WorkToNoun(NockCellComputeTail)));
    PassCellHead(env, step, m, k, tf, hf);
    var n1 := Sim(fuel, env, step, m2, hf);
    var h := Eval(fuel, env, m.subject, hf, m.cache);
    if !h.Ok? {
      return 1 + n1;
    }
    var m3 := m2.(res := h.res, cache := h.cache);
    var m4 := m.(work := Push(Push(k, h.res), WorkToNoun(NockCellCons)), res := h.res, cache := h.cache);
    PassCellTail(env, step, m.(res := h.res, cache := h.cache), k, tf);
    var n2 := Sim(fuel, env, step, m4, tf);
    var t := Eval(fuel, env, m.subject, tf, h.cache);
    Chain(step, PushFormula(m2, hf), n1, m3, n2);
    if !t.Ok? {
      return 1 + n1 + 1 + n2;
    }
    var m5 := m4.(res := t.res, cache := t.cache);
    PassCellCons(env, step, m.(res := t.res, cache := t.cache), k, h.res);
    Chain(step, PushFormula(m2, hf), n1 + 1 + n2, m5, 0);
    n := 1 + n1 + 1 + n2 + 1;
  }

  lemma Sim0(env: Env, step: Machine -> StepResult, m: Machine, op: Noun, arg: Noun) returns (n: nat)
    requires Models(env, step) && m.frames.Push?
    requires op == Atom(0)
    ensures Reaches(step, PushFormula(m, Cell(op, arg)), n, Eval0(m.subject, arg, m.cache), m)
  {
    var m1 := m.(work := Push(Push(m.work, arg), WorkToNoun(Nock0Axis)));
    assert PushFormula(m, Cell(op, arg)) == Running(m1);
    Pass0(env, step, m, m.work, arg);
    n := 1;
  }

  lemma Sim1(env: Env, step: Machine -> StepResult, m: Machine, op: Noun, arg: Noun) returns (n: nat)
    requires Models(env, step) && m.frames.Push?
    requires op == Atom(1)
    ensures Reaches(step, PushFormula(m, Cell(op, arg)), n, Ok(arg, m.cache), m)
  {
    var m1 := m.(work := Push(Push(m.work, arg), WorkToNoun(Nock1Constant)));
    assert PushFormula(m, Cell(op, arg)) == Running(m1);
    Pass1(env, step, m, m.work, arg);
    n := 1;
  }

  lemma Sim2(fuel: nat, env: Env, step: Machine -> StepResult, m: Machine, op: Noun, arg: Noun) returns (n: nat)
    requires Models(env, step) && m.frames.Push?
    requires op == Atom(2)
    ensures Reaches(step, PushFormula(m, Cell(op, arg)), n, Eval2(fuel, env, m.subject, arg, m.cache), m)
    decreases fuel, 3
  {
    if !arg.Cell? {
      return 0;
    }
    var k, b, c := m.work, arg.h, arg.t;
    var mf := m.(frames := Push(m.frames, Frame(b, c)));
    var m1 := mf.(work := Push(k, WorkToNoun(Nock2ComputeSubject)));
    assert PushFormula(m, Cell(op, arg)) == Running(m1);
    var m2 := mf.(work := Push(k, WorkToNoun(Nock2ComputeFormula)));
    Pass2Subject(env, step, mf, k);
    var n1 := Sim(fuel, env, step, m2, b);
    var x := Eval(fuel, env, m.subject, b, m.cache);
    if !x.Ok? {
      return 1 + n1;
    }
    Chain(step, Running(m1), 0, m1, n1);
    n := Sim2Formula(fuel, env, step, m, b, c, x, 1 + n1);
  }

  /** Nock 2 once the subject is computed, `steps` passes in: the formula. */
  lemma Sim2Formula(fuel: nat, env: Env, step: Machine -> StepResult, m: Machine, b: Noun, c: Noun, x: Outcome, steps: nat)
    returns (n: nat)
    requires Models(env, step) && m.frames.Push?
    requires x == Eval(fuel, env, m.subject, b, m.cache) && x.Ok?
    requires Run(step, Running(m.(frames := Push(m.frames, Frame(b, c)), work := Push(m.work, WorkToNoun(Nock2ComputeSubject)))), steps)
          == Running(m.(frames := Push(m.frames, Frame(b, c)), work := Push(m.work, WorkToNoun(Nock2ComputeFormula)),
                        res := x.res, cache := x.cache))
    ensures Reaches(step, Running(m.(frames := Push(m.frames, Frame(b, c)), work := Push(m.work, WorkToNoun(Nock2ComputeSubject)))),
                    n, Eval2(fuel, env, m.subject, Cell(b, c), m.cache), m)
    decreases fuel, 2
  {
    var k := m.work;
    var m1 := m.(frames := Push(m.frames, Frame(b, c)), work := Push(k, WorkToNoun(Nock2ComputeSubject)));
    var m3 := m.(frames := Push(m.frames, Frame(b, c)), work := Push(k, WorkToNoun(Nock2ComputeFormula)), res := x.res, cache := x.cache);
    var mx := m.(frames := Push(m.frames, Frame(x.res, c)), res := x.res, cache := x.cache);
    var m4 := mx.(work := Push(k, WorkToNoun(Nock2ComputeResult)));
    Pass2Formula(env, step, m.(frames := Push(m.frames, Frame(b, c)), res := x.res, cache := x.cache), k);
    var n2 := Sim(fuel, env, step, m4, c);
    var y := Eval(fuel, env, m.subject, c, x.cache);
    Chain(step, Running(m1), steps, m3, n2);
    if !y.Ok? {
      return steps + 1 + n2;
    }
    n := Sim2Result(fuel, env, step, m, b, c, x, y, steps + 1 + n2);
  }

  /** Nock 2 once subject and formula are computed, `steps` passes in: the
      product, then the subject restored and the frame popped. */
  lemma Sim2Result(fuel: nat, env: Env, step: Machine -> StepResult, m: Machine, b: Noun, c: Noun, x: Outcome, y: Outcome, steps: nat)
    returns (n: nat)
    requires Models(env, step) && m.frames.Push?
    requires x == Eval(fuel, env, m.subject, b, m.cache) && x.Ok?
    requires y == Eval(fuel, env, m.subject, c, x.cache) && y.Ok?
    requires Run(step, Running(m.(frames := Push(m.frames, Frame(b, c)), work := Push(m.work, WorkToNoun(Nock2ComputeSubject)))), steps)
          == Running(m.(frames := Push(m.frames, Frame(x.res, c)), work := Push(m.work, WorkToNoun(Nock2ComputeResult)),
                        res := y.res, cache := y.cache))
    ensures Reaches(step, Running(m.(frames := Push(m.frames, Frame(b, c)), work := Push(m.work, WorkToNoun(Nock2ComputeSubject)))),
                    n, Eval2(fuel, env, m.subject, Cell(b, c), m.cache), m)
    decreases fuel, 1
  {
    var k := m.work;
    var m1 := m.(frames := Push(m.frames, Frame(b, c)), work := Push(k, WorkToNoun(Nock2ComputeSubject)));
    var m5 := m.(frames := Push(m.frames, Frame(x.res, c)), work := Push(k, WorkToNoun(Nock2ComputeResult)), res := y.res, cache := y.cache);
    var my := m.(frames := Push(m.frames, Frame(x.res, m.subject)), subject := x.res, res := y.res, cache := y.cache);
    var m6 := my.(work := Push(k, WorkToNoun(Nock2RestoreSubject)));
    Pass2Result(env, step, m.(frames := Push(m.frames, Frame(x.res, c)), res := y.res, cache := y.cache), k);
    var n3 := Sim(fuel, env, step, m6, y.res);
    var z := Eval(fuel, env, x.res, y.res, y.cache);
    Chain(step, Running(m1), steps, m5, n3);
    if !z.Ok? {
      return steps + 1 + n3;
    }
    var m7 := m6.(res := z.res, cache := z.cache);
    PassRestoreFrame(env, step, my.(res := z.res, cache := z.cache), k, Nock2RestoreSubject);
    Chain(step, Running(m1), steps + 1 + n3, m7, 0);
    n := steps + 1 + n3 + 1;
  }

  lemma Sim3(fuel: nat, env: Env, step: Machine -> StepResult, m: Machine, op: Noun, arg: Noun) returns (n: nat)
    requires Models(env, step) && m.frames.Push?
    requires op == Atom(3)
    ensures Reaches(step, PushFormula(m, Cell(op, arg)), n, Eval3(fuel, env, m.subject, arg, m.cache), m)
    decreases fuel, 1
  {
    var k := m.work;
    var m1 := m.(work := Push(Push(k, arg), WorkToNoun(Nock3ComputeChild)));
    assert PushFormula(m, Cell(op, arg)) == Running(m1);
    var m2 := m.(work := Push(k, WorkToNoun(Nock3ComputeType)));
    Pass3Child(env, step, m, k, arg);
    var n1 := Sim(fuel, env, step, m2, arg);
    var x := Eval(fuel, env, m.subject, arg, m.cache);
    if !x.Ok? {
      return 1 + n1;
    }
    var m3 := m2.(res := x.res, cache := x.cache);
    Pass3Type(env, step, m.(res := x.res, cache := x.cache), k);
    Chain(step, PushFormula(m2, arg), n1, m3, 0);
    n := 1 + n1 + 1;
  }

  lemma Sim4(fuel: nat, env: Env, step: Machine -> StepResult, m: Machine, op: Noun, arg: Noun) returns (n: nat)
    requires Models(env, step) && m.frames.Push?
    requires op == Atom(4)
    ensures Reaches(step, PushFormula(m, Cell(op, arg)), n, Eval4(fuel, env, m.subject, arg, m.cache), m)
    decreases fuel, 1
  {
    var k := m.work;
    var m1 := m.(work := Push(Push(k, arg), WorkToNoun(Nock4ComputeChild)));
    assert PushFormula(m, Cell(op, arg)) == Running(m1);
    var m2 := m.(work := Push(k, WorkToNoun(Nock4Increment)));
    Pass4Child(env, step, m, k, arg);
    var n1 := Sim(fuel, env, step, m2, arg);
    var x := Eval(fuel, env, m.subject, arg, m.cache);
    if !x.Ok? {
      return 1 + n1;
    }
    var m3 := m2.(res := x.res, cache := x.cache);
    Pass4Increment(env, step, m.(res := x.res, cache := x.cache), k);
    Chain(step, PushFormula(m2, arg), n1, m3, 0);
    n := 1 + n1 + 1;
  }

  lemma Sim5(fuel: nat, env: Env, step: Machine -> StepResult, m: Machine, op: Noun, arg: Noun) returns (n: nat)
    requires Models(env, step) && m.frames.Push?
    requires op == Atom(5)
    ensures Reaches(step, PushFormula(m, Cell(op, arg)), n, Eval5(fuel, env, m.subject, arg, m.cache), m)
    decreases fuel, 1
  {
    if !arg.Cell? {
      return 0;
    }
    var k, b, c := m.work, arg.h, arg.t;
    var m1 := m.(work := Push(Push(Push(k, c), b), WorkToNoun(Nock5ComputeLeftChild)));
    assert PushFormula(m, Cell(op, arg)) == Running(m1);
    var m2 := m.(work := Push(Push(k, c), WorkToNoun(Nock5ComputeRightChild)));
    Pass5Left(env, step, m, k, c, b);
    var n1 := Sim(fuel, env, step, m2, b);
    var x := Eval(fuel, env, m.subject, b, m.cache);
    if !x.Ok? {
      return 1 + n1;
    }
    var m3 := m2.(res := x.res, cache := x.cache);
    var m4 := m.(work := Push(Push(k, x.res), WorkToNoun(Nock5TestEquals)), res := x.res, cache := x.cache);
    Pass5Right(env, step, m.(res := x.res, cache := x.cache), k, c);
    var n2 := Sim(fuel, env, step, m4, c);
    var y := Eval(fuel, env, m.subject, c, x.cache);
    Chain(step, PushFormula(m2, b), n1, m3, n2);
    if !y.Ok? {
      return 1 + n1 + 1 + n2;
    }
    var m5 := m4.(res := y.res, cache := y.cache);
    Pass5Test(env, step, m.(res := y.res, cache := y.cache), k, x.res);
    Chain(step, PushFormula(m2, b), n1 + 1 + n2, m5, 0);
    n := 1 + n1 + 1 + n2 + 1;
  }

  lemma Sim6(fuel: nat, env: Env, step: Machine -> StepResult, m: Machine, op: Noun, arg: Noun) returns (n: nat)
    requires Models(env, step) && m.frames.Push?
    requires op == Atom(6)
    ensures Reaches(step, PushFormula(m, Cell(op, arg)), n, Eval6(fuel, env, m.subject, arg, m.cache), m)
    decreases fuel, 1
  {
    if !arg.Cell? || !arg.t.Cell? {
      return 0;
    }
    var k, b, yes, no := m.work, arg.h, arg.t.h, arg.t.t;
    var m1 := m.(work := Push(Push(Push(Push(k, no), yes), b), WorkToNoun(Nock6ComputeTest)));
    assert PushFormula(m, Cell(op, arg)) == Running(m1);
    var m2 := m.(work := Push(Push(Push(k, no), yes), WorkToNoun(Nock6ComputeBranch)));
    Pass6Test(env, step, m, Push(Push(k, no), yes), b);
    var n1 := Sim(fuel, env, step, m2, b);
    var x := Eval(fuel, env, m.subject, b, m.cache);
    if !x.Ok? {
      return 1 + n1;
    }
    var m3 := m2.(res := x.res, cache := x.cache);
    Pass6Branch(env, step, m.(res := x.res, cache := x.cache), k, no, yes);
    if x.res != Atom(0) && x.res != Atom(1) {
      Chain(step, PushFormula(m2, b), n1, m3, 0);
      return 1 + n1 + 1;
    }
    var branch := if x.res == Atom(0) then yes else no;
    var m4 := m.(work := Push(k, WorkToNoun(Nock6Done)), res := x.res, cache := x.cache);
    var n2 := Sim(fuel, env, step, m4, branch);
    var y := Eval(fuel, env, m.subject, branch, x.cache);
    Chain(step, PushFormula(m2, b), n1, m3, n2);
    if !y.Ok? {
      return 1 + n1 + 1 + n2;
    }
    var m5 := m4.(res := y.res, cache := y.cache);
    Pass6Done(env, step, m.(res := y.res, cache := y.cache), k);
    Chain(step, PushFormula(m2, b), n1 + 1 + n2, m5, 0);
    n := 1 + n1 + 1 + n2 + 1;
  }

  lemma Sim7(fuel: nat, env: Env, step: Machine -> StepResult, m: Machine, op: Noun, arg: Noun) returns (n: nat)
    requires Models(env, step) && m.frames.Push?
    requires op == Atom(7)
    ensures Reaches(step, PushFormula(m, Cell(op, arg)), n, Eval7(fuel, env, m.subject, arg, m.cache), m)
    decreases fuel, 1
  {
    if !arg.Cell? {
      return 0;
    }
    var k, b, c := m.work, arg.h, arg.t;
    var m1 := m.(work := Push(Push(Push(k, c), b), WorkToNoun(Nock7ComputeSubject)));
    assert PushFormula(m, Cell(op, arg)) == Running(m1);
    var m2 := m.(work := Push(Push(k, c), WorkToNoun(Nock7ComputeResult)));
    Pass7Subject(env, step, m, Push(k, c), b);
    var n1 := Sim(fuel, env, step, m2, b);
    var x := Eval(fuel, env, m.subject, b, m.cache);
    if !x.Ok? {
      return 1 + n1;
    }
    var m3 := m2.(res := x.res, cache := x.cache);
    var m4 := m.(work := Push(Push(k, m.subject), WorkToNoun(Nock7RestoreSubject)), subject := x.res,
                 res := x.res, cache := x.cache);
    Pass7Result(env, step, m.(res := x.res, cache := x.cache), k, c);
    var n2 := Sim(fuel, env, step, m4, c);
    var y := Eval(fuel, env, x.res, c, x.cache);
    Chain(step, PushFormula(m2, b), n1, m3, n2);
    if !y.Ok? {
      return 1 + n1 + 1 + n2;
    }
    var m5 := m4.(res := y.res, cache := y.cache);
    PassRestoreSaved(env, step, m.(subject := x.res, res := y.res, cache := y.cache), k, m.subject, Nock7RestoreSubject);
    Chain(step, PushFormula(m2, b), n1 + 1 + n2, m5, 0);
    n := 1 + n1 + 1 + n2 + 1;
  }

  lemma Sim8(fuel: nat, env: Env, step: Machine -> StepResult, m: Machine, op: Noun, arg: Noun) returns (n: nat)
    requires Models(env, step) && m.frames.Push?
    requires op == Atom(8)
    ensures Reaches(step, PushFormula(m, Cell(op, arg)), n, Eval8(fuel, env, m.subject, arg, m.cache), m)
    decreases fuel, 1
  {
    if !arg.Cell? {
      return 0;
    }
    var k, b, c := m.work, arg.h, arg.t;
    var m1 := m.(work := Push(Push(Push(k, c), b), WorkToNoun(Nock8ComputeSubject)));
    assert PushFormula(m, Cell(op, arg)) == Running(m1);
    var m2 := m.(work := Push(Push(k, c), WorkToNoun(Nock8ComputeResult)));
    Pass8Subject(env, step, m, Push(k, c), b);
    var n1 := Sim(fuel, env, step, m2, b);
    var x := Eval(fuel, env, m.subject, b, m.cache);
    if !x.Ok? {
      return 1 + n1;
    }
    var m3 := m2.(res := x.res, cache := x.cache);
    var pinned := Cell(x.res, m.subject);
    var m4 := m.(work := Push(Push(k, m.subject), WorkToNoun(Nock8RestoreSubject)), subject := pinned,
                 res := x.res, cache := x.cache);
    Pass8Result(env, step, m.(res := x.res, cache := x.cache), k, c);
    var n2 := Sim(fuel, env, step, m4, c);
    var y := Eval(fuel, env, pinned, c, x.cache);
    Chain(step, PushFormula(m2, b), n1, m3, n2);
    if !y.Ok? {
      return 1 + n1 + 1 + n2;
    }
    var m5 := m4.(res := y.res, cache := y.cache);
    PassRestoreSaved(env, step, m.(subject := pinned, res := y.res, cache := y.cache), k, m.subject, Nock8RestoreSubject);
    Chain(step, PushFormula(m2, b), n1 + 1 + n2, m5, 0);
    n := 1 + n1 + 1 + n2 + 1;
  }

  lemma Sim9(fuel: nat, env: Env, step: Machine -> StepResult, m: Machine, op: Noun, arg: Noun) returns (n: nat)
    requires Models(env, step) && m.frames.Push?
    requires op == Atom(9)
    ensures Reaches(step, PushFormula(m, Cell(op, arg)), n, Eval9(fuel, env, m.subject, arg, m.cache), m)
    decreases fuel, 2
  {
    if !arg.Cell? {
      return 0;
    }
    var k, b, c := m.work, arg.h, arg.t;
    var mf := m.(frames := Push(m.frames, Frame(b, c)));
    var m1 := mf.(work := Push(k, WorkToNoun(Nock9ComputeCore)));
    assert PushFormula(m, Cell(op, arg)) == Running(m1);
    var m2 := mf.(work := Push(k, WorkToNoun(Nock9ComputeResult)));
    Pass9Core(env, step, mf, k);
    var n1 := Sim(fuel, env, step, m2, c);
    var core := Eval(fuel, env, m.subject, c, m.cache);
    if !core.Ok? {
      return 1 + n1;
    }
    Chain(step, Running(m1), 0, m1, n1);
    n := Sim9Core(fuel, env, step, m, b, c, core, 1 + n1);
  }

  /** Nock 9 once the core is computed, `steps` passes in: the arm is taken
      out of it and run against it. */
  lemma Sim9Core(fuel: nat, env: Env, step: Machine -> StepResult, m: Machine, b: Noun, c: Noun, core: Outcome, steps: nat)
    returns (n: nat)
    requires Models(env, step) && m.frames.Push?
    requires core == Eval(fuel, env, m.subject, c, m.cache) && core.Ok?
    requires Run(step, Running(m.(work := Push(m.work, WorkToNoun(Nock9ComputeCore)), frames := Push(m.frames, Frame(b, c)))), steps)
          == Running(m.(work := Push(m.work, WorkToNoun(Nock9ComputeResult)), frames := Push(m.frames, Frame(b, c)),
                        res := core.res, cache := core.cache))
    ensures Reaches(step, Running(m.(work := Push(m.work, WorkToNoun(Nock9ComputeCore)), frames := Push(m.frames, Frame(b, c)))),
                    n, Eval9(fuel, env, m.subject, Cell(b, c), m.cache), m)
    decreases fuel, 1
  {
    var k := m.work;
    var mf := m.(frames := Push(m.frames, Frame(b, c)));
    var m1 := mf.(work := Push(k, WorkToNoun(Nock9ComputeCore)));
    var m3 := mf.(work := Push(k, WorkToNoun(Nock9ComputeResult)), res := core.res, cache := core.cache);
    Pass9Result(env, step, mf.(res := core.res, cache := core.cache), k);
    if !b.Atom? || Slot(core.res, b.n).None? {
      Chain(step, Running(m1), steps, m3, 0);
      return steps + 1;
    }
    var g := Slot(core.res, b.n).value;
    var mc := m.(frames := Push(m.frames, Frame(b, m.subject)), subject := core.res, res := core.res, cache := core.cache);
    var m4 := mc.(work := Push(k, WorkToNoun(Nock9RestoreSubject)));
    var n2 := Sim(fuel, env, step, m4, g);
    var y := Eval(fuel, env, core.res, g, core.cache);
    Chain(step, Running(m1), steps, m3, n2);
    if !y.Ok? {
      return steps + 1 + n2;
    }
    var m5 := m4.(res := y.res, cache := y.cache);
    PassRestoreFrame(env, step, mc.(res := y.res, cache := y.cache), k, Nock9RestoreSubject);
    Chain(step, Running(m1), steps + 1 + n2, m5, 0);
    n := steps + 1 + n2 + 1;
  }

  lemma Sim10(fuel: nat, env: Env, step: Machine -> StepResult, m: Machine, op: Noun, arg: Noun) returns (n: nat)
    requires Models(env, step) && m.frames.Push?
    requires op == Atom(10)
    ensures Reaches(step, PushFormula(m, Cell(op, arg)), n, Eval10(fuel, env, m.subject, arg, m.cache), m)
    decreases fuel, 2
  {
    if !arg.Cell? || !arg.h.Cell? {
      return 0;
    }
    var k, axis, pf, tf := m.work, arg.h.h, arg.h.t, arg.t;
    var m1 := m.(work := Push(Push(Push(Push(k, axis), pf), tf), WorkToNoun(Nock10ComputeTree)));
    assert PushFormula(m, Cell(op, arg)) == Running(m1);
    var m2 := m.(work := Push(Push(Push(k, axis), pf), WorkToNoun(Nock10ComputePatch)));
    Pass10Tree(env, step, m, Push(Push(k, axis), pf), tf);
    var n1 := Sim(fuel, env, step, m2, tf);
    var t := Eval(fuel, env, m.subject, tf, m.cache);
    if !t.Ok? {
      return 1 + n1;
    }
    Chain(step, Running(m1), 0, m1, n1);
    n := Sim10Edit(fuel, env, step, m, axis, pf, tf, t, 1 + n1);
  }

  /** Nock 10 once the tree is computed, `steps` passes in: the patch, then
      the edit. */
  lemma Sim10Edit(fuel: nat, env: Env, step: Machine -> StepResult, m: Machine, axis: Noun, pf: Noun, tf: Noun, t: Outcome, steps: nat)
    returns (n: nat)
    requires Models(env, step) && m.frames.Push?
    requires t == Eval(fuel, env, m.subject, tf, m.cache) && t.Ok?
    requires Run(step, Running(m.(work := Push(Push(Push(Push(m.work, axis), pf), tf), WorkToNoun(Nock10ComputeTree)))), steps)
          == Running(m.(work := Push(Push(Push(m.work, axis), pf), WorkToNoun(Nock10ComputePatch)), res := t.res, cache := t.cache))
    ensures Reaches(step, Running(m.(work := Push(Push(Push(Push(m.work, axis), pf), tf), WorkToNoun(Nock10ComputeTree)))),
                    n, Eval10(fuel, env, m.subject, Cell(Cell(axis, pf), tf), m.cache), m)
    decreases fuel, 1
  {
    var k := m.work;
    var m1 := m.(work := Push(Push(Push(Push(k, axis), pf), tf), WorkToNoun(Nock10ComputeTree)));
    var m3 := m.(work := Push(Push(Push(k, axis), pf), WorkToNoun(Nock10ComputePatch)), res := t.res, cache := t.cache);
    var m4 := m.(work := Push(Push(Push(k, t.res), axis), WorkToNoun(Nock10Edit)), res := t.res, cache := t.cache);
    Pass10Patch(env, step, m.(res := t.res, cache := t.cache), k, axis, pf);
    var n2 := Sim(fuel, env, step, m4, pf);
    var p := Eval(fuel, env, m.subject, pf, t.cache);
    Chain(step, Running(m1), steps, m3, n2);
    if !p.Ok? {
      return steps + 1 + n2;
    }
    var m5 := m4.(res := p.res, cache := p.cache);
    Pass10Edit(env, step, m.(res := p.res, cache := p.cache), k, t.res, axis);
    Chain(step, Running(m1), steps + 1 + n2, m5, 0);
    n := steps + 1 + n2 + 1;
  }

  lemma Sim11(fuel: nat, env: Env, step: Machine -> StepResult, m: Machine, op: Noun, arg: Noun) returns (n: nat)
    requires Models(env, step) && m.frames.Push?
    requires op == Atom(11)
    ensures Reaches(step, PushFormula(m, Cell(op, arg)), n, Eval11(fuel, env, m.subject, arg, m.cache), m)
    decreases fuel, 3
  {
    if !arg.Cell? {
      return 0;
    }
    var k, hint, body := m.work, arg.h, arg.t;
    var mf := m.(frames := Push(m.frames, Frame(hint, body)));
    if hint.Cell? {
      n := SimDynamicHint(fuel, env, step, m, hint, body);
    } else {
      var m1 := mf.(work := Push(k, WorkToNoun(Nock11ComputeResult)));
      assert PushFormula(m, Cell(op, arg)) == Running(m1);
      var m2 := mf.(work := Push(k, WorkToNoun(Nock11Done)));
      Pass11Result(env, step, mf, k);
      var n1 := Sim(fuel, env, step, m2, body);
      var r := Eval(fuel, env, m.subject, body, m.cache);
      if !r.Ok? {
        return 1 + n1;
      }
      var m3 := m2.(res := r.res, cache := r.cache);
      Pass11Done(env, step, mf.(res := r.res, cache := r.cache), k);
      Chain(step, PushFormula(m2, body), n1, m3, 0);
      n := 1 + n1 + 1;
    }
  }

  /** Nock 11 with a dynamic hint `[tag clue]`. */
  lemma SimDynamicHint(fuel: nat, env: Env, step: Machine -> StepResult, m: Machine, hint: Noun, body: Noun)
    returns (n: nat)
    requires Models(env, step) && m.frames.Push?
    requires hint.Cell?
    ensures Reaches(step, PushFormula(m, Cell(Atom(11), Cell(hint, body))), n,
                    Eval11(fuel, env, m.subject, Cell(hint, body), m.cache), m)
    decreases fuel, 2
  {
    var k := m.work;
    var mf := m.(frames := Push(m.frames, Frame(hint, body)));
    var m1 := mf.(work := Push(k, WorkToNoun(Nock11ComputeHint)));
    assert PushFormula(m, Cell(Atom(11), Cell(hint, body))) == Running(m1);
    Pass11Hint(env, step, mf, k);
    if PreHint(env, m.subject, hint, body, m.cache).Some? {
      return 1;
    }
    var m2 := mf.(work := Push(k, WorkToNoun(Nock11ComputeResult)));
    var n1 := Sim(fuel, env, step, m2, hint.t);
    var clue := Eval(fuel, env, m.subject, hint.t, m.cache);
    if !clue.Ok? {
      return 1 + n1;
    }
    Chain(step, Running(m1), 0, m1, n1);
    n := SimHintBody(fuel, env, step, m, hint, body, clue, 1 + n1);
  }

  /** A dynamic hint whose clue is computed, `steps` passes in: the body,
      then the cache update. */
  lemma SimHintBody(fuel: nat, env: Env, step: Machine -> StepResult, m: Machine, hint: Noun, body: Noun, clue: Outcome, steps: nat)
    returns (n: nat)
    requires Models(env, step) && m.frames.Push?
    requires hint.Cell? && PreHint(env, m.subject, hint, body, m.cache).None?
    requires clue == Eval(fuel, env, m.subject, hint.t, m.cache) && clue.Ok?
    requires Run(step, Running(m.(work := Push(m.work, WorkToNoun(Nock11ComputeHint)), frames := Push(m.frames, Frame(hint, body)))), steps)
          == Running(m.(work := Push(m.work, WorkToNoun(Nock11ComputeResult)), frames := Push(m.frames, Frame(hint, body)),
                        res := clue.res, cache := clue.cache))
    ensures Reaches(step, Running(m.(work := Push(m.work, WorkToNoun(Nock11ComputeHint)), frames := Push(m.frames, Frame(hint, body)))),
                    n, Eval11(fuel, env, m.subject, Cell(hint, body), m.cache), m)
    decreases fuel, 1
  {
    var k := m.work;
    var mf := m.(frames := Push(m.frames, Frame(hint, body)));
    var m1 := mf.(work := Push(k, WorkToNoun(Nock11ComputeHint)));
    var m3 := mf.(work := Push(k, WorkToNoun(Nock11ComputeResult)), res := clue.res, cache := clue.cache);
    var m4 := mf.(work := Push(k, WorkToNoun(Nock11Done)), res := clue.res, cache := clue.cache);
    Pass11Result(env, step, mf.(res := clue.res, cache := clue.cache), k);
    var n2 := Sim(fuel, env, step, m4, body);
    var r := Eval(fuel, env, m.subject, body, clue.cache);
    Chain(step, Running(m1), steps, m3, n2);
    if !r.Ok? {
      return steps + 1 + n2;
    }
    var m5 := m4.(res := r.res, cache := r.cache);
    Pass11Done(env, step, mf.(res := r.res, cache := r.cache), k);
    Chain(step, Running(m1), steps + 1 + n2, m5, 0);
    n := steps + 1 + n2 + 1;
  }

  // ---------------------------------------------------------------------
  // The whole run of `interpret`.

  /** From the state `interpret` starts in, a run of `step` halts with the
      product `Eval` computes, or crashes when `Eval` crashes, and stays so
      for every larger budget. */
  lemma RunAgrees(fuel: nat, env: Env, step: Machine -> StepResult, subject: Noun, formula: Noun) returns (steps: nat)
    requires Models(env, step)
    ensures var e := Eval(fuel, env, subject, formula, Empty());
      && (e.Ok? ==> forall budget | budget >= steps :: Run(step, Start(subject, formula), budget) == Halted(e.res))
      && (e.Crash? ==> forall budget | budget >= steps :: Run(step, Start(subject, formula), budget) == Crashed)
  {
    var m0 := Machine(Push(Bottom, WorkToNoun(Done)), Push(Bottom, Frame(Atom(0), Atom(0))), subject, Atom(0), Empty());
    var start := Start(subject, formula);
    assert start == PushFormula(m0, formula);
    var n := Sim(fuel, env, step, m0, formula);
    var e := Eval(fuel, env, subject, formula, Empty());
    if e.Ok? {
      var done := m0.(res := e.res, cache := e.cache);
      PassDone(env, step, done, Bottom);
      Chain(step, start, n, done, 0);
      steps := n + 1;
    } else {
      steps := n;
    }
    if e.Ok? || e.Crash? {
      forall budget | budget >= steps
        ensures Run(step, start, budget) == Run(step, start, steps)
      {
        Stays(step, start, steps, budget - steps);
      }
    }
  }

  /** `Interpret` (whose result is `Run(Loop(env), Start(subject, formula),
      budget)`) halts with `Eval`'s product or crashes when `Eval` crashes,
      once its budget is large enough. */
  lemma InterpretAgrees(fuel: nat, env: Env, subject: Noun, formula: Noun) returns (steps: nat)
    ensures var e := Eval(fuel, env, subject, formula, Empty());
      && (e.Ok? ==> forall budget | budget >= steps :: Run(Loop(env), Start(subject, formula), budget) == Halted(e.res))
      && (e.Crash? ==> forall budget | budget >= steps :: Run(Loop(env), Start(subject, formula), budget) == Crashed)
  {
    LoopModels(env);
    steps := RunAgrees(fuel, env, Loop(env), subject, formula);
  }
}
