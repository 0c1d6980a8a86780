/** Functions that get a summary and whose calls come out otherwise: none of their walks is contained. */
module SummaryFailures {
  import opened Numbers
  import opened Basics
  import opened Bytecode
  import opened Machine
  import opened Values
  import opened AbstractValues
  import opened Summaries
  import opened ContainedWalks
  import opened SummarySoundness

  function Sample(ops: seq<Op>, init: seq<Option<Val>>): Func {
    Func(Whole(ops, [], []), [], init, 4, 6, 0, false, true)
  }

  function StartOf<X>(f: Func, regs: seq<Val>, x: X): State<Val, Frame<X>> {
    At(f.entry, regs, Frame(f.init, x))
  }

  /** A walk that fails, or comes out as unknown, at its first op is not contained unless the plain one knows no more. */
  lemma FirstTells<X>(o: Outside<X>, f: Func, firstTruthy: bool, trust: Trust)
    requires f.Valid() && f.entry < |f.code.ops|
    requires var c := CheckOp(o, f, firstTruthy, f.entry, FirstFacts(f, trust));
             c.Fails? || (c.Comes? && Walked(o, f, firstTruthy) != Some(c.a))
    ensures !Contained(o, f, firstTruthy, trust)
  {
    hide Walked, CheckOp, Func.Valid;
  }

  lemma GivesAtOnce<X>(o: Outside<X>, f: Func, firstTruthy: bool, a: Av)
    requires f.Valid() && NextCase(o, f, firstTruthy, f.entry, FirstRegs(f), FirstLocals(f)) == Gives(a)
    ensures Walked(o, f, firstTruthy) == Some(a)
  {
    hide NextCase, Func.Valid;
  }

  // ----- A stale temporary -----

  const STALE := Sample([Ret(4)], [])

  lemma StaleWalk<X>(o: Outside<X>, firstTruthy: bool, trust: Trust)
    ensures STALE.Valid() && Walked(o, STALE, firstTruthy) == Some(Known(Undef)) && !Contained(o, STALE, firstTruthy, trust)
  {
    assert STALE.Valid() && STALE.code.ops[0] == Ret(4) && Ret(4).Reads([]) == [4];
    hide Func.Valid;
    assert NextCase(o, STALE, firstTruthy, 0, FirstRegs(STALE), FirstLocals(STALE)) == Gives(Known(Undef));
    GivesAtOnce(o, STALE, firstTruthy, Known(Undef));
    assert CheckOp(o, STALE, firstTruthy, 0, FirstFacts(STALE, trust)) == Comes(Unknown);
    FirstTells(o, STALE, firstTruthy, trust);
  }

  /** A register that no op has written holds what an earlier call left there. */
  lemma StaleTemporary<X>(o: Outside<X>, firstTruthy: bool, trust: Trust, regs: seq<Val>, x: X)
    requires CallRegs(STALE, [], regs)
    ensures STALE.Valid() && Summarize(o, STALE) == Some(Always(Undef)) && !Contained(o, STALE, firstTruthy, trust)
    ensures Run(Framed(o, STALE.consts), STALE.code, StartOf(STALE, regs, x), 1) == Ended(Returned(regs[4]), Frame(STALE.init, x))
  {
    hide Walked, Contained;
    StaleWalk(o, firstTruthy, trust);
    StaleWalk(o, true, trust);
    StaleWalk(o, false, trust);
    var s := StartOf(STALE, regs, x);
    StepIsNext(Framed(o, STALE.consts), STALE.code, 0, regs, s.w);
    assert Step(Framed(o, STALE.consts), STALE.code, s) == Ended(Returned(regs[4]), Frame(STALE.init, x));
  }

  // ----- The number 1 from a register, after one op -----

  function OneAfter(op: Op): Func {
    Sample([op, Num(4, ONE), Ret(4)], [None])
  }

  /** `1 in 1` on a register, and an assignment to a variable that is not declared yet. */
  const ODD := BinK(5, In, 0, ONE)
  const EARLY := SetVarK(0, 0, 9, ONE)

  predicate Sampled(op: Op) {
    op == ODD || op == EARLY
  }

  lemma OneValid(op: Op)
    requires Sampled(op)
    ensures OneAfter(op).Valid()
  {
    hide Op.WithinRegs, Op.ListFits, Op.Reads, Func.ValidOp;
    var f := OneAfter(op);
    assert f.code.ops == [op, Num(4, ONE), Ret(4)];
    OneOpValid(op, op);
    OneOpValid(op, Num(4, ONE));
    OneOpValid(op, Ret(4));
  }

  lemma OneOpValid(op: Op, o: Op)
    requires Sampled(op) && (o == op || o == Num(4, ONE) || o == Ret(4))
    ensures o.WithinRegs([], 7) && OneAfter(op).ValidOp(o)
  {
  }

  lemma OneEnds<X>(o: Outside<X>, op: Op, firstTruthy: bool, regs: seq<Av>, locals: seq<Av>)
    requires Sampled(op) && OneAfter(op).Valid() && |regs| == OneAfter(op).Width()
    ensures Walk(o, OneAfter(op), firstTruthy, 1, regs, locals, SUMMARY_STEPS - 1) == Some(Known(Numeric(ONE)))
  {
    hide Func.Valid;
    var f, regs' := OneAfter(op), regs[4 := Known(Numeric(ONE))];
    assert NextCase(o, f, firstTruthy, 1, regs, locals) == Going(2, regs', locals);
    assert NextCase(o, f, firstTruthy, 2, regs', locals) == Gives(Known(Numeric(ONE)));
    assert Walk(o, f, firstTruthy, 2, regs', locals, SUMMARY_STEPS - 2) == Some(Known(Numeric(ONE)));
  }

  lemma OneWalk<X>(o: Outside<X>, op: Op, firstTruthy: bool)
    requires Sampled(op) && OneAfter(op).Valid()
    ensures Walked(o, OneAfter(op), firstTruthy) == Some(Known(Numeric(ONE)))
  {
    hide Func.Valid;
    var f := OneAfter(op);
    var c := NextCase(o, f, firstTruthy, 0, FirstRegs(f), FirstLocals(f));
    assert c.Going? && c.ip == 1;
    OneEnds(o, op, firstTruthy, c.regs, c.locals);
  }

  lemma OneFails<X>(o: Outside<X>, op: Op, firstTruthy: bool, trust: Trust)
    requires Sampled(op) && OneAfter(op).Valid() && (op.BinK? ==> !trust.Operators?)
    ensures !Contained(o, OneAfter(op), firstTruthy, trust)
  {
    hide Func.Valid, NextCase, RanksAfter, LocalRanksAfter, DeclaredAfter, Walked;
    var f := OneAfter(op);
    assert CheckOp(o, f, firstTruthy, 0, FirstFacts(f, trust)).Fails?;
    FirstTells(o, f, firstTruthy, trust);
  }

  lemma OneIsSummary<X>(o: Outside<X>, op: Op, firstTruthy: bool, trust: Trust)
    requires Sampled(op) && (op.BinK? ==> !trust.Operators?)
    ensures OneAfter(op).Valid() && Summarize(o, OneAfter(op)) == Some(Always(Numeric(ONE))) && !Contained(o, OneAfter(op), firstTruthy, trust)
  {
    hide Walked, Contained, Func.Valid;
    OneValid(op);
    OneWalk(o, op, true);
    OneWalk(o, op, false);
    OneFails(o, op, firstTruthy, trust);
  }

  lemma OddActs<X>(o: Outside<X>, regs: seq<Val>, w: Frame<X>)
    requires |regs| > 0 && regs[0] == Undef && o.binary(In, Undef, Numeric(ONE), w.rest) == Aborts(7, w.rest)
    ensures Perform(Framed(o, []), ODD, Fetch(regs, [0]), w) == Leave(Ends(Fault(7), w))
  {
  }

  lemma EarlyActs<X>(o: Outside<X>, x: X, y: X)
    requires o.act(SetVarS(0, 0, 9, 0), [Numeric(ONE)], x) == Yields(Undef, y)
    ensures Perform(Framed(o, []), EARLY, [], Frame([None], x)) == Value(Undef, Frame([None], y))
  {
  }

  /** An operator that faults: the summary still says 1. */
  lemma LostFault<X>(o: Outside<X>, firstTruthy: bool, trust: Trust, regs: seq<Val>, x: X)
    requires o.binary(In, Undef, Numeric(ONE), x) == Aborts(7, x)
    requires CallRegs(OneAfter(ODD), [], regs) && !trust.Operators?
    ensures var f := OneAfter(ODD);
            && f.Valid() && Summarize(o, f) == Some(Always(Numeric(ONE))) && !Contained(o, f, firstTruthy, trust)
            && Run(Framed(o, f.consts), f.code, StartOf(f, regs, x), 1) == Ended(Fault(7), Frame(f.init, x))
  {
    hide Summarize, Contained, Func.Valid, Step;
    OneIsSummary(o, ODD, firstTruthy, trust);
    OddStep(o, regs, x);
  }

  lemma OddStep<X>(o: Outside<X>, regs: seq<Val>, x: X)
    requires o.binary(In, Undef, Numeric(ONE), x) == Aborts(7, x) && OneAfter(ODD).Valid()
    requires |regs| == OneAfter(ODD).Width() && regs[0] == Undef
    ensures Step(Framed(o, []), OneAfter(ODD).code, At(0, regs, Frame([None], x))) == Ended(Fault(7), Frame([None], x))
  {
    hide Perform, Func.Valid;
    StepIsNext(Framed(o, []), OneAfter(ODD).code, 0, regs, Frame([None], x));
    OddActs(o, regs, Frame([None], x));
  }

  lemma OneReturns<X>(o: Outside<X>, regs: seq<Val>, w: Frame<X>)
    requires |regs| == OneAfter(EARLY).Width() && OneAfter(EARLY).Valid()
    ensures Run(Framed(o, []), OneAfter(EARLY).code, At(1, regs, w), 2) == Ended(Returned(Numeric(ONE)), w)
  {
    hide Func.Valid, Perform;
    var f, h, regs' := OneAfter(EARLY), Framed(o, []), regs[4 := Numeric(ONE)];
    StepIsNext(h, f.code, 1, regs, w);
    StepIsNext(h, f.code, 2, regs', w);
    OneActs(o, regs', w);
    assert Step(h, f.code, At(1, regs, w)) == At(2, regs', w);
    assert Step(h, f.code, At(2, regs', w)) == Ended(Returned(Numeric(ONE)), w);
    assert Run(h, f.code, At(2, regs', w), 1) == Ended(Returned(Numeric(ONE)), w);
  }

  lemma OneActs<X>(o: Outside<X>, regs: seq<Val>, w: Frame<X>)
    requires |regs| > 4
    ensures Perform(Framed(o, []), Num(4, ONE), [], w) == Value(Numeric(ONE), w)
    ensures Perform(Framed(o, []), Ret(4), Fetch(regs, [4]), w) == Leave(Ends(Returned(regs[4]), w))
  {
  }

  lemma EarlyStep<X>(o: Outside<X>, regs: seq<Val>, x: X, y: X)
    requires o.act(SetVarS(0, 0, 9, 0), [Numeric(ONE)], x) == Yields(Undef, y)
    requires |regs| == OneAfter(EARLY).Width() && OneAfter(EARLY).Valid()
    ensures Step(Framed(o, []), OneAfter(EARLY).code, At(0, regs, Frame([None], x))) == At(1, regs, Frame([None], y))
  {
    hide Perform, Func.Valid;
    StepIsNext(Framed(o, []), OneAfter(EARLY).code, 0, regs, Frame([None], x));
    EarlyActs(o, x, y);
  }

  /** The assignment goes to a variable of an outer scope, so a run changes the world; the summary does not. */
  lemma LostAssignment<X>(o: Outside<X>, firstTruthy: bool, trust: Trust, regs: seq<Val>, x: X, y: X)
    requires o.act(SetVarS(0, 0, 9, 0), [Numeric(ONE)], x) == Yields(Undef, y)
    requires CallRegs(OneAfter(EARLY), [], regs)
    ensures var f := OneAfter(EARLY);
            && f.Valid() && Summarize(o, f) == Some(Always(Numeric(ONE))) && !Contained(o, f, firstTruthy, trust)
            && Run(Framed(o, f.consts), f.code, StartOf(f, regs, x), 3) == Ended(Returned(Numeric(ONE)), Frame(f.init, y))
  {
    hide Summarize, Contained, Perform, Step, Func.Valid;
    OneIsSummary(o, EARLY, firstTruthy, trust);
    EarlyStep(o, regs, x, y);
    OneReturns(o, regs, Frame([None], y));
  }
}
