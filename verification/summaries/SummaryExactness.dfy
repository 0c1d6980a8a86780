/** How exact the asking walk is. Under a hostile outside, and from hostile temporaries, a run follows the
    plain walk only if the asking walk comes out the same. */
module SummaryExactness {
  import opened Numbers
  import opened Basics
  import opened Bytecode
  import opened Machine
  import opened Values
  import opened AbstractValues
  import opened Summaries
  import opened SummaryRuns
  import opened ContainedWalks
  import opened SummarySoundness

  // ----- A hostile outside -----

  /** All that reaches outside fails unless it is trusted not to, and what is loaded from there is an object. */
  ghost predicate Hostile<X(!new)>(o: Outside<X>, trust: Trust) {
    && (forall un: UnaryOp, v: Val, x: X :: o.unary(un, v, x) == Answer(trust.Scalars? && Meek1(un, RankOf(v)), x))
    && (forall bin: BinaryOp, l: Val, r: Val, x: X :: o.binary(bin, l, r, x) == Answer(trust.Scalars? && Meek2(bin, RankOf(l), RankOf(r)), x))
    && (forall op: Op, vs: seq<Val>, x: X :: o.act(op, vs, x).Aborts?)
    && (forall op: Op, x: X :: o.load(op, x) == Other(0))
  }

  /** Where an operator is trusted it yields a scalar, though no number. */
  function Answer<X>(meek: bool, x: X): Effect<Val, Val, X> {
    if meek then Yields(Str(""), x) else Aborts(0, x)
  }

  function Spoiled<X>(o: Outside<X>, trust: Trust): Outside<X> {
    o.(load := (_, _) => Other(0),
       act := (_, _, x) => Aborts(0, x),
       unary := (un, v, x) => Answer(trust.Scalars? && Meek1(un, RankOf(v)), x),
       binary := (bin, l, r, x) => Answer(trust.Scalars? && Meek2(bin, RankOf(l), RankOf(r)), x))
  }

  /** What the walks use of the outside. */
  ghost predicate SameNumbers<X>(o: Outside<X>, p: Outside<X>) {
    o.arith == p.arith && o.digits == p.digits
  }

  // ----- What the two walks know, and what the run has -----

  /** The plain walk takes a value for undefined, or for the truth of what it took for undefined, and errs. */
  predicate Errs(a: Av, v: Val) {
    || (a == Known(Undef) && v == Other(0))
    || (a.Known? && a.v.Bool? && v == Bool(!a.v.b))
  }

  predicate Shadows(asking: Av, plain: Av, v: Val) {
    asking == plain || (asking.Unknown? && Errs(plain, v))
  }

  ghost predicate ShadowsAll(asking: seq<Av>, plain: seq<Av>, ks: seq<Rank>, vs: seq<Val>) {
    && |asking| == |plain| == |ks| == |vs|
    && forall i :: 0 <= i < |vs| ==> Shadows(asking[i], plain[i], vs[i]) && ks[i] == RankOf(vs[i])
  }

  predicate ShadowsLocal(asking: Av, plain: Av, k: Rank, declared: bool, v: Option<Val>) {
    Shadows(asking, plain, v.Or(Undef)) && k == RankOf(v.Or(Undef)) && declared == v.Some?
  }

  ghost predicate ShadowsLocals(asking: seq<Av>, plain: seq<Av>, ks: seq<Rank>, declared: seq<bool>, vs: seq<Option<Val>>) {
    && |asking| == |plain| == |ks| == |declared| == |vs|
    && forall i :: 0 <= i < |vs| ==> ShadowsLocal(asking[i], plain[i], ks[i], declared[i], vs[i])
  }

  ghost predicate Shadowed<X>(s: Facts, known: seq<Av>, locals: seq<Av>, regs: seq<Val>, fr: Frame<X>) {
    && ShadowsAll(s.regs, known, s.ranks, regs)
    && ShadowsLocals(s.locals, locals, s.localRanks, s.declared, fr.locals)
  }

  // ----- One op -----

  /** The op came out as the plain walk has it, so the asking walk has it too, and the shadow stays. */
  ghost predicate Exposes<X>(f: Func, op: Op, ip: nat, ks: seq<Rank>, s: Facts, known: seq<Av>, plain: Case, asking: Case, act: Act<Val, Frame<X>>)
    requires |ks| >= Arity(op) && f.ValidOp(op) && (op.HasDest() ==> op.d < |s.regs| == |known|)
  {
    match plain
    case GivesUp => true
    case Gives(a) => asking.Gives? && act.Leave? && act.e.Ends? && act.e.how.Returned? && Shadows(asking.a, a, act.e.how.v)
    case Going(to, regs, locals) =>
      if act.Test? then
        regs == known &&
        (op.Jumps() && op.Successor(act.b, ip) == to ==>
           asking.Going? && asking.ip == to && asking.regs == s.regs
           && ShadowsLocals(asking.locals, locals, LocalRanksAfter(op, ks, s), DeclaredAfter(op, s), act.w.locals))
      else if act.Value? then
        && asking.Going? && asking.ip == to
        && ShadowsLocals(asking.locals, locals, LocalRanksAfter(op, ks, s), DeclaredAfter(op, s), act.w.locals)
        && if op.HasDest() then
             && |regs| == |known| == |asking.regs| == |s.regs|
             && asking.regs == s.regs[op.d := asking.regs[op.d]] && regs == known[op.d := regs[op.d]]
             && Shadows(asking.regs[op.d], regs[op.d], act.v) && RankOfOp(f, op, ks, s) == RankOf(act.v)
           else asking.regs == s.regs && regs == known
      else act.e.Ends? && !act.e.how.Returned?
  }

  /** Before an op: `a` and `c` are what the asking and the plain walk know of its operands. */
  ghost predicate Stands<X>(f: Func, op: Op, ks: seq<Rank>, s: Facts, known: seq<Av>, locals: seq<Av>, a: seq<Av>, c: seq<Av>,
                            vs: seq<Val>, fr: Frame<X>) {
    && op.ListFits(f.code.lists) && f.ValidOp(op) && |vs| == |op.Reads(f.code.lists)| && |vs| >= Arity(op)
    && (op.HasDest() ==> op.d < |s.regs| == |known|)
    && ShadowsAll(a, c, ks, vs) && ShadowsLocals(s.locals, locals, s.localRanks, s.declared, fr.locals)
  }

  lemma ShadowUnary(un: UnaryOp, asking: Av, plain: Av, v: Val, firstTruthy: bool)
    requires Shadows(asking, plain, v)
    ensures !un.LogicalNot? ==> AvUnary(un, asking, firstTruthy) == AvUnary(un, plain, firstTruthy)
    ensures un.LogicalNot? ==> Shadows(AvUnary(un, asking, firstTruthy), AvUnary(un, plain, firstTruthy), Bool(!Truthy(v)))
  {
  }

  lemma ShadowBinary<X>(o: Outside<X>, bin: BinaryOp, a: Av, b: Av, c: Av, d: Av, l: Val, r: Val)
    requires Shadows(a, c, l) && Shadows(b, d, r)
    ensures AvBinary(o, bin, a, b) == AvBinary(o, bin, c, d)
  {
  }

  /** Under a hostile outside an operator yields exactly if it is sure to, and its rank is exact. */
  lemma HostileUnary<X(!new)>(o: Outside<X>, un: UnaryOp, v: Val, fr: Frame<X>, trust: Trust)
    requires Hostile(o, trust)
    ensures var e := UnaryIn(o, un, v, fr);
            if Sure1(un, RankOf(v), trust) then
              e.Yields? && e.w == fr && RankOf(e.r) == Rank1(un, RankOf(v))
              && (un.LogicalNot? ==> e.r == Bool(!Truthy(v)))
            else e.Aborts?
  {
  }

  lemma HostileBinary<X(!new)>(o: Outside<X>, bin: BinaryOp, l: Val, r: Val, fr: Frame<X>, trust: Trust)
    requires Hostile(o, trust)
    ensures var e := BinaryIn(o, bin, l, r, fr);
            if Sure2(bin, RankOf(l), RankOf(r), trust) then e.Yields? && e.w == fr && RankOf(e.r) == Rank2(bin, RankOf(l), RankOf(r))
            else e.Aborts?
  {
    hide BinaryIn, Inner2, Meek2, Compares;
    InnerBinary(o, bin, l, r, fr);
  }

  lemma HostileOperator<X(!new)>(o: Outside<X>, f: Func, op: Op, ks: seq<Rank>, vs: seq<Val>, fr: Frame<X>, trust: Trust)
    requires Hostile(o, trust) && Operates(op) && |ks| == |vs| >= Arity(op) && forall i :: 0 <= i < |vs| ==> ks[i] == RankOf(vs[i])
    ensures var act := Perform(Framed(o, f.consts), op, vs, fr);
            if Sure(op, ks, trust) then act.Value? && act.w == fr && RankOfOperator(op, ks, trust) == RankOf(act.v)
               && (op.Unary? && op.un.LogicalNot? ==> act.v == Bool(!Truthy(vs[0])))
            else act.Leave? && act.e.Ends? && !act.e.how.Returned?
  {
    hide Ask, Bare, Decide, BinaryIn, UnaryIn;
    if op.Unary? {
      HostileUnary(o, op.un, vs[0], fr, trust);
    } else if op.Binary? {
      HostileBinary(o, op.bin, vs[0], vs[1], fr, trust);
    } else if op.BinK? {
      HostileBinary(o, op.bin, vs[0], Numeric(op.n), fr, trust);
    } else {
      HostileBinary(o, op.bin, Numeric(op.n), vs[0], fr, trust);
    }
  }

  lemma OperatorExposes<X(!new)>(o: Outside<X>, f: Func, op: Op, firstTruthy: bool, ip: nat, ks: seq<Rank>, s: Facts, known: seq<Av>, locals: seq<Av>,
                                 a: seq<Av>, c: seq<Av>, vs: seq<Val>, fr: Frame<X>)
    requires Hostile(o, s.trust) && Operates(op) && Stands(f, op, ks, s, known, locals, a, c, vs, fr)
    ensures Exposes(f, op, ip, ks, s, known, OpCase(o, f, op, firstTruthy, ip, c, known, locals), OpCase(o, f, op, firstTruthy, ip, a, s.regs, s.locals),
                    Perform(Framed(o, f.consts), op, vs, fr))
    ensures var act := Perform(Framed(o, f.consts), op, vs, fr);
            if act.Value? then Sure(op, ks, s.trust) else act.Leave? && act.e.Ends? && !act.e.how.Returned?
  {
    hide Perform, OpCase, Op.ListFits, Op.Reads, Sure, RankOfOperator, AvBinary, AvUnary, ShadowsLocals, Func.ValidOp, Hostile, RankOf;
    HostileOperator(o, f, op, ks, vs, fr, s.trust);
    OperatorIsCase(o, f, op, firstTruthy, ip, c, known, locals);
    OperatorIsCase(o, f, op, firstTruthy, ip, a, s.regs, s.locals);
    ShadowOperator(o, f, op, firstTruthy, a, c, vs, fr);
  }

  lemma ShadowOperator<X>(o: Outside<X>, f: Func, op: Op, firstTruthy: bool, a: seq<Av>, c: seq<Av>, vs: seq<Val>, fr: Frame<X>)
    requires Operates(op) && |a| == |c| == |vs| >= Arity(op) && forall i :: 0 <= i < |vs| ==> Shadows(a[i], c[i], vs[i])
    ensures op.Unary? && op.un.LogicalNot? ==> Shadows(OperatorAv(o, op, firstTruthy, a), OperatorAv(o, op, firstTruthy, c), Bool(!Truthy(vs[0])))
    ensures !(op.Unary? && op.un.LogicalNot?) ==> OperatorAv(o, op, firstTruthy, a) == OperatorAv(o, op, firstTruthy, c)
  {
    hide AvBinary, AvUnary, Truthy;
    if op.Unary? {
      ShadowUnary(op.un, a[0], c[0], vs[0], firstTruthy);
    } else if op.Binary? {
      ShadowBinary(o, op.bin, a[0], a[1], c[0], c[1], vs[0], vs[1]);
    } else if op.BinK? {
      ShadowBinary(o, op.bin, a[0], Known(Numeric(op.n)), c[0], Known(Numeric(op.n)), vs[0], Undef);
    } else {
      ShadowBinary(o, op.bin, Known(Numeric(op.n)), a[0], Known(Numeric(op.n)), c[0], Undef, vs[0]);
    }
  }

  // Variables.

  /** Under a hostile outside a variable that is not declared faults. */
  lemma HostileVariable<X(!new)>(o: Outside<X>, f: Func, op: Op, vs: seq<Val>, fr: Frame<X>, trust: Trust)
    requires Hostile(o, trust) && Reaches(op, fr) && |vs| >= Arity(op)
    ensures var act := Perform(Framed(o, f.consts), op, vs, fr); act.Leave? && act.e.Ends? && !act.e.how.Returned?
  {
    hide BinaryIn, UnaryIn;
  }

  lemma VariableExposes<X(!new)>(o: Outside<X>, f: Func, op: Op, firstTruthy: bool, ip: nat, ks: seq<Rank>, s: Facts, known: seq<Av>, locals: seq<Av>,
                                 a: seq<Av>, c: seq<Av>, vs: seq<Val>, fr: Frame<X>)
    requires InFrame(op) && !op.BrVarK? && !Reaches(op, fr) && Stands(f, op, ks, s, known, locals, a, c, vs, fr)
    ensures Exposes(f, op, ip, ks, s, known, OpCase(o, f, op, firstTruthy, ip, c, known, locals), OpCase(o, f, op, firstTruthy, ip, a, s.regs, s.locals),
                    Perform(Framed(o, f.consts), op, vs, fr))
  {
    hide Perform, OpCase, VariableCase, Exposes, Op.ListFits, Op.Reads, Func.ValidOp, Shadows, RankOf, Arity;
    WritesOne(op, f.code.lists);
    VariableIsCase(o, f, op, firstTruthy, ip, c, known, locals);
    VariableIsCase(o, f, op, firstTruthy, ip, a, s.regs, s.locals);
    if op.slot >= |locals| {
      AwayExposes(f, op, ip, ks, s, known, locals, a, c, Perform(Framed(o, f.consts), op, vs, fr));
    } else {
      VariablePerforms(o, f, op, vs, fr);
      if op.Local? || op.VarS? {
        ReadExposes(f, op, ip, ks, s, known, locals, a, c, fr, Perform(Framed(o, f.consts), op, vs, fr));
      } else {
        WriteExposes(f, op, ip, ks, s, known, locals, a, c, vs, fr, Perform(Framed(o, f.consts), op, vs, fr));
      }
    }
  }

  lemma AwayExposes<X>(f: Func, op: Op, ip: nat, ks: seq<Rank>, s: Facts, known: seq<Av>, locals: seq<Av>, a: seq<Av>, c: seq<Av>, act: Act<Val, Frame<X>>)
    requires InFrame(op) && op.slot >= |locals| && |ks| >= Arity(op) && f.ValidOp(op) && (op.HasDest() ==> op.d < |s.regs| == |known|)
    requires op.Decl? || op.SetVarS? ==> |a| > 0 && |c| > 0
    ensures Exposes(f, op, ip, ks, s, known, VariableCase(op, ip, c, known, locals), VariableCase(op, ip, a, s.regs, s.locals), act)
  {
  }

  lemma ReadExposes<X>(f: Func, op: Op, ip: nat, ks: seq<Rank>, s: Facts, known: seq<Av>, locals: seq<Av>, a: seq<Av>, c: seq<Av>, fr: Frame<X>,
                       act: Act<Val, Frame<X>>)
    requires (op.Local? || (op.VarS? && op.hops == 0)) && op.slot < |locals| && op.d < |s.regs| == |known| && |ks| >= Arity(op) && f.ValidOp(op)
    requires ShadowsLocals(s.locals, locals, s.localRanks, s.declared, fr.locals) && act == Value(fr.locals[op.slot].Or(Undef), fr)
    ensures Exposes(f, op, ip, ks, s, known, VariableCase(op, ip, c, known, locals), VariableCase(op, ip, a, s.regs, s.locals), act)
  {
    hide Shadows, RankOf, Func.ValidOp;
    assert ShadowsLocal(s.locals[op.slot], locals[op.slot], s.localRanks[op.slot], s.declared[op.slot], fr.locals[op.slot]);
  }

  lemma WriteExposes<X>(f: Func, op: Op, ip: nat, ks: seq<Rank>, s: Facts, known: seq<Av>, locals: seq<Av>, a: seq<Av>, c: seq<Av>, vs: seq<Val>,
                        fr: Frame<X>, act: Act<Val, Frame<X>>)
    requires (op.Decl? || op.SetVarS? || op.SetVarK?) && InFrame(op) && op.slot < |locals| && |ks| >= Arity(op) && f.ValidOp(op)
    requires ShadowsLocals(s.locals, locals, s.localRanks, s.declared, fr.locals) && ShadowsAll(a, c, ks, vs) && !Reaches(op, fr)
    requires !op.SetVarK? ==> |vs| == 1
    requires act.Value? && act.w == fr.(locals := fr.locals[op.slot := Some(if op.SetVarK? then Numeric(op.n) else vs[0])])
    ensures Exposes(f, op, ip, ks, s, known, VariableCase(op, ip, c, known, locals), VariableCase(op, ip, a, s.regs, s.locals), act)
  {
    hide Shadows, RankOf, Func.ValidOp, ShadowsLocals, LocalRanksAfter, DeclaredAfter;
    if op.SetVarK? {
      NumberShadows(op.n);
      WriteShadows(op, ks, s, locals, Known(Numeric(op.n)), Known(Numeric(op.n)), Numeric(op.n), fr);
    } else {
      WriteShadows(op, ks, s, locals, a[0], c[0], vs[0], fr);
    }
  }

  lemma WriteShadows<X>(op: Op, ks: seq<Rank>, s: Facts, locals: seq<Av>, a: Av, c: Av, v: Val, fr: Frame<X>)
    requires (op.Decl? || op.SetVarS? || op.SetVarK?) && InFrame(op) && op.slot < |locals| && !Reaches(op, fr)
    requires ShadowsLocals(s.locals, locals, s.localRanks, s.declared, fr.locals) && Shadows(a, c, v)
    requires if op.SetVarK? then RankOf(v) == IsNumber else |ks| > 0 && RankOf(v) == ks[0]
    ensures |locals| == |s.locals| == |fr.locals|
    ensures ShadowsLocals(s.locals[op.slot := a], locals[op.slot := c], LocalRanksAfter(op, ks, s), DeclaredAfter(op, s), fr.locals[op.slot := Some(v)])
  {
    hide Shadows, RankOf;
    assert ShadowsLocal(s.locals[op.slot], locals[op.slot], s.localRanks[op.slot], s.declared[op.slot], fr.locals[op.slot]);
  }

  lemma NumberShadows(n: Number)
    ensures Shadows(Known(Numeric(n)), Known(Numeric(n)), Numeric(n)) && RankOf(Numeric(n)) == IsNumber
  {
  }

  // Jumps.

  lemma HostileDecision<X(!new)>(o: Outside<X>, f: Func, op: Op, vs: seq<Val>, fr: Frame<X>, trust: Trust)
    requires Hostile(o, trust) && op.Jumps() && |vs| >= Arity(op) && (op.BrVarK? ==> op.hops == 0)
    ensures var act := Decide(Framed(o, f.consts), op, vs, fr);
            if act.Test? then act.w == fr && (op.Jf? || op.Jt? || op.Br? ==> act.b == Truthy(vs[0]))
            else act.Leave? && act.e.Ends? && !act.e.how.Returned?
  {
    hide OnNumbers, Truthy;
  }

  /** Where the plain walk errs about the operand of a branch, the run takes the other arm. */
  lemma JumpCaseExposes<X>(f: Func, op: Op, firstTruthy: bool, ip: nat, ks: seq<Rank>, s: Facts, known: seq<Av>, locals: seq<Av>,
                           a: seq<Av>, c: seq<Av>, vs: seq<Val>, fr: Frame<X>, act: Act<Val, Frame<X>>)
    requires op.Jumps() && !op.BrVarK? && |ks| == |a| == |c| == |vs| == Arity(op) && f.ValidOp(op)
    requires forall i :: 0 <= i < |vs| ==> Shadows(a[i], c[i], vs[i])
    requires !Joins(op, ip)
    requires ShadowsLocals(s.locals, locals, s.localRanks, s.declared, fr.locals)
    requires if act.Test? then act.w == fr && (op.Jf? || op.Jt? || op.Br? ==> act.b == Truthy(vs[0]))
             else act.Leave? && act.e.Ends? && !act.e.how.Returned?
    ensures Exposes(f, op, ip, ks, s, known, JumpCase(op, firstTruthy, ip, c, known, locals), JumpCase(op, firstTruthy, ip, a, s.regs, s.locals), act)
  {
    hide ShadowsLocals, Func.ValidOp, CompareNumbers;
  }

  lemma JumpArity(op: Op, lists: seq<Reg>)
    requires op.Jumps() && op.ListFits(lists)
    ensures |op.Reads(lists)| == Arity(op)
  {
  }

  lemma JumpExposes<X(!new)>(o: Outside<X>, f: Func, op: Op, firstTruthy: bool, ip: nat, ks: seq<Rank>, s: Facts, known: seq<Av>, locals: seq<Av>,
                             a: seq<Av>, c: seq<Av>, vs: seq<Val>, fr: Frame<X>)
    requires op.Jumps() && !op.BrVarK? && Hostile(o, s.trust) && Stands(f, op, ks, s, known, locals, a, c, vs, fr)
    requires !Joins(op, ip)
    ensures Exposes(f, op, ip, ks, s, known, OpCase(o, f, op, firstTruthy, ip, c, known, locals), OpCase(o, f, op, firstTruthy, ip, a, s.regs, s.locals),
                    Perform(Framed(o, f.consts), op, vs, fr))
  {
    hide Perform, OpCase, JumpCase, Exposes, Op.ListFits, Op.Reads, Func.ValidOp, Decide, Shadows, RankOf, ShadowsLocals, Hostile, Truthy;
    JumpIsDecided(Framed(o, f.consts), op, vs, fr);
    JumpIsCase(o, f, op, firstTruthy, ip, c, known, locals);
    JumpIsCase(o, f, op, firstTruthy, ip, a, s.regs, s.locals);
    HostileDecision(o, f, op, vs, fr, s.trust);
    JumpArity(op, f.code.lists);
    JumpCaseExposes(f, op, firstTruthy, ip, ks, s, known, locals, a, c, vs, fr, Decide(Framed(o, f.consts), op, vs, fr));
  }

  lemma VariableTestExposes<X(!new)>(o: Outside<X>, f: Func, op: Op, firstTruthy: bool, ip: nat, ks: seq<Rank>, s: Facts, known: seq<Av>, locals: seq<Av>,
                                     a: seq<Av>, c: seq<Av>, vs: seq<Val>, fr: Frame<X>)
    requires op.BrVarK? && Hostile(o, s.trust) && Stands(f, op, ks, s, known, locals, a, c, vs, fr)
    ensures Exposes(f, op, ip, ks, s, known, OpCase(o, f, op, firstTruthy, ip, c, known, locals), OpCase(o, f, op, firstTruthy, ip, a, s.regs, s.locals),
                    Perform(Framed(o, f.consts), op, vs, fr))
  {
    hide Perform, OpCase, Op.ListFits, Op.Reads, Func.ValidOp, Decide, RankOf, CompareNumbers, Hostile;
    if op.hops > 0 {
      FarCase(o, f, op, firstTruthy, ip, c, known, locals);
    } else {
      TestPerforms(Framed(o, f.consts), op, vs, fr);
      HostileDecision(o, f, op, vs, fr, s.trust);
      VariableIsCase(o, f, op, firstTruthy, ip, c, known, locals);
      VariableIsCase(o, f, op, firstTruthy, ip, a, s.regs, s.locals);
      if op.slot < |locals| {
        assert ShadowsLocal(s.locals[op.slot], locals[op.slot], s.localRanks[op.slot], s.declared[op.slot], fr.locals[op.slot]);
      }
    }
  }

  // The rest.

  lemma PlainActs<X(!new)>(o: Outside<X>, f: Func, op: Op, vs: seq<Val>, fr: Frame<X>, trust: Trust)
    requires Plain(op) && |vs| >= Arity(op) && Hostile(o, trust) && f.ValidOp(op)
    ensures var act := Perform(Framed(o, f.consts), op, vs, fr);
            if op.Ret? then act == Leave(Ends(Returned(vs[0]), fr))
            else act == Value(if op.Num? then Numeric(op.n) else if op.Const? then f.consts[op.c] else if op.Move? then vs[0] else Other(0), fr)
  {
    hide Decide, BinaryIn, UnaryIn, ActIn, RankOf;
  }

  lemma PlainExposes<X(!new)>(o: Outside<X>, f: Func, op: Op, firstTruthy: bool, ip: nat, ks: seq<Rank>, s: Facts, known: seq<Av>, locals: seq<Av>,
                              a: seq<Av>, c: seq<Av>, vs: seq<Val>, fr: Frame<X>)
    requires !Operates(op) && !InFrame(op) && !op.Jumps() && Hostile(o, s.trust) && Stands(f, op, ks, s, known, locals, a, c, vs, fr)
    ensures Exposes(f, op, ip, ks, s, known, OpCase(o, f, op, firstTruthy, ip, c, known, locals), OpCase(o, f, op, firstTruthy, ip, a, s.regs, s.locals),
                    Perform(Framed(o, f.consts), op, vs, fr))
  {
    hide Perform, OpCase, ShadowsLocals, Hostile, Shadows, RankOf, RankOfOp, LocalRanksAfter, DeclaredAfter;
    PlainKinds(o, f, op, firstTruthy, ip, c, known, locals);
    if Plain(op) {
      PlainActs(o, f, op, vs, fr, s.trust);
      PlainCaseExposes(o, f, op, firstTruthy, ip, ks, s, known, locals, a, c, vs, fr, Perform(Framed(o, f.consts), op, vs, fr));
    }
  }

  lemma PlainCaseExposes<X>(o: Outside<X>, f: Func, op: Op, firstTruthy: bool, ip: nat, ks: seq<Rank>, s: Facts, known: seq<Av>, locals: seq<Av>,
                            a: seq<Av>, c: seq<Av>, vs: seq<Val>, fr: Frame<X>, act: Act<Val, Frame<X>>)
    requires Plain(op) && Stands(f, op, ks, s, known, locals, a, c, vs, fr)
    requires if op.Ret? then act == Leave(Ends(Returned(vs[0]), fr))
             else act == Value(if op.Num? then Numeric(op.n) else if op.Const? then f.consts[op.c] else if op.Move? then vs[0] else Other(0), fr)
    ensures Exposes(f, op, ip, ks, s, known, OpCase(o, f, op, firstTruthy, ip, c, known, locals), OpCase(o, f, op, firstTruthy, ip, a, s.regs, s.locals), act)
  {
    hide ShadowsLocals, Op.Successor;
  }

  lemma OpExposes<X(!new)>(o: Outside<X>, f: Func, op: Op, firstTruthy: bool, ip: nat, ks: seq<Rank>, s: Facts, known: seq<Av>, locals: seq<Av>,
                           a: seq<Av>, c: seq<Av>, vs: seq<Val>, fr: Frame<X>)
    requires Hostile(o, s.trust) && Stands(f, op, ks, s, known, locals, a, c, vs, fr)
    requires !Joins(op, ip)
    ensures var act := Perform(Framed(o, f.consts), op, vs, fr);
            && Exposes(f, op, ip, ks, s, known, OpCase(o, f, op, firstTruthy, ip, c, known, locals), OpCase(o, f, op, firstTruthy, ip, a, s.regs, s.locals), act)
            && ((act.Leave? && act.e.Ends? && !act.e.how.Returned?) || StaysSurely(op, ks, s))
  {
    hide Perform, OpCase, Exposes, Op.ListFits, Op.Reads, Func.ValidOp, RankOf, Hostile, Arity, Shadows, Op.Successor, Sure;
    var act := Perform(Framed(o, f.consts), op, vs, fr);
    if Operates(op) {
      OperatorExposes(o, f, op, firstTruthy, ip, ks, s, known, locals, a, c, vs, fr);
    } else if Reaches(op, fr) {
      HostileVariable(o, f, op, vs, fr, s.trust);
      FaultExposes(o, f, op, firstTruthy, ip, ks, s, known, locals, a, c, fr, act);
    } else {
      if SlotOp(op) {
        assert ShadowsLocal(s.locals[op.slot], locals[op.slot], s.localRanks[op.slot], s.declared[op.slot], fr.locals[op.slot]);
      }
      if op.BrVarK? {
        VariableTestExposes(o, f, op, firstTruthy, ip, ks, s, known, locals, a, c, vs, fr);
      } else if InFrame(op) {
        VariableExposes(o, f, op, firstTruthy, ip, ks, s, known, locals, a, c, vs, fr);
      } else if op.Jumps() {
        JumpExposes(o, f, op, firstTruthy, ip, ks, s, known, locals, a, c, vs, fr);
      } else {
        PlainExposes(o, f, op, firstTruthy, ip, ks, s, known, locals, a, c, vs, fr);
      }
    }
  }

  /** An op that faults exposes nothing. */
  lemma FaultExposes<X>(o: Outside<X>, f: Func, op: Op, firstTruthy: bool, ip: nat, ks: seq<Rank>, s: Facts, known: seq<Av>, locals: seq<Av>,
                        a: seq<Av>, c: seq<Av>, fr: Frame<X>, act: Act<Val, Frame<X>>)
    requires InFrame(op) && op.ListFits(f.code.lists) && f.ValidOp(op) && |a| == |c| == |op.Reads(f.code.lists)| && |ks| >= Arity(op)
    requires (op.HasDest() ==> op.d < |s.regs| == |known|) && act.Leave? && act.e.Ends? && !act.e.how.Returned?
    ensures Exposes(f, op, ip, ks, s, known, OpCase(o, f, op, firstTruthy, ip, c, known, locals), OpCase(o, f, op, firstTruthy, ip, a, s.regs, s.locals), act)
  {
    hide OpCase, VariableCase, Op.Reads, Op.ListFits, Func.ValidOp;
    WritesOne(op, f.code.lists);
    VariableIsCase(o, f, op, firstTruthy, ip, c, known, locals);
    VariableNeverGives(op, ip, c, known, locals);
  }

  lemma VariableNeverGives(op: Op, ip: nat, c: seq<Av>, known: seq<Av>, locals: seq<Av>)
    requires InFrame(op) && (op.Decl? || op.SetVarS? ==> |c| > 0) && (op.HasDest() ==> op.d < |known|)
    ensures !VariableCase(op, ip, c, known, locals).Gives?
  {
  }

  // ----- Runs -----

  lemma FetchShadows(asking: seq<Av>, plain: seq<Av>, ks: seq<Rank>, vs: seq<Val>, from: seq<Reg>)
    requires ShadowsAll(asking, plain, ks, vs) && forall i :: 0 <= i < |from| ==> from[i] < |vs|
    ensures ShadowsAll(Fetch(asking, from), Fetch(plain, from), Fetch(ks, from), Fetch(vs, from))
  {
    hide Shadows, RankOf;
  }

  lemma PutShadows(asking: seq<Av>, plain: seq<Av>, ks: seq<Rank>, vs: seq<Val>, d: Reg, a: Av, c: Av, k: Rank, v: Val)
    requires ShadowsAll(asking, plain, ks, vs) && d < |vs| && Shadows(a, c, v) && k == RankOf(v)
    ensures ShadowsAll(asking[d := a], plain[d := c], ks[d := k], vs[d := v])
  {
    hide Shadows, RankOf;
  }

  ghost predicate Closes<X>(f: Func, op: Op, ks: seq<Rank>, s: Facts, plain: Case, asking: Case, t: State<Val, Frame<X>>)
    requires |ks| >= Arity(op) && f.ValidOp(op) && (op.HasDest() ==> op.d < |s.ranks|)
  {
    match plain
    case GivesUp => true
    case Gives(a) => t.Ended? && t.how.Returned? && asking.Gives? && Shadows(asking.a, a, t.how.v)
    case Going(to, known, locals) => t.At? && t.ip == to ==>
      && asking.Going? && asking.ip == to
      && ShadowsAll(asking.regs, known, RanksAfter(f, op, ks, s), t.regs)
      && ShadowsLocals(asking.locals, locals, LocalRanksAfter(op, ks, s), DeclaredAfter(op, s), t.w.locals)
  }

  lemma ExposesCloses<X>(h: Host<Val, Frame<X>>, f: Func, op: Op, ip: nat, ks: seq<Rank>, s: Facts, known: seq<Av>, plain: Case, asking: Case, regs: seq<Val>,
                         act: Act<Val, Frame<X>>)
    requires |ks| >= Arity(op) && f.ValidOp(op) && |s.regs| == |known| == |regs| == |s.ranks| && (op.HasDest() ==> op.d < |regs|)
    requires Exposes(f, op, ip, ks, s, known, plain, asking, act) && ShadowsAll(s.regs, known, s.ranks, regs) && (act.Test? ==> op.Jumps())
    ensures act.Leave? && act.e.Ends? ==> Next(h, f.code.pcs, op, ip, regs, act) == Ended(act.e.how, act.e.w)
    ensures Closes(f, op, ks, s, plain, asking, Next(h, f.code.pcs, op, ip, regs, act))
  {
    hide Shadows, RankOf, RankOfOp, Op.Successor, ShadowsAll, ShadowsLocals, Func.ValidOp, LocalRanksAfter, DeclaredAfter;
    if act.Value? {
      ValueCloses(h, f, op, ip, ks, s, known, plain, asking, regs, act);
    } else if act.Test? {
      TestCloses(h, f, op, ip, ks, s, known, plain, asking, regs, act);
    }
  }

  lemma ValueCloses<X>(h: Host<Val, Frame<X>>, f: Func, op: Op, ip: nat, ks: seq<Rank>, s: Facts, known: seq<Av>, plain: Case, asking: Case, regs: seq<Val>,
                       act: Act<Val, Frame<X>>)
    requires |ks| >= Arity(op) && f.ValidOp(op) && |s.regs| == |known| == |regs| == |s.ranks| && (op.HasDest() ==> op.d < |regs|)
    requires Exposes(f, op, ip, ks, s, known, plain, asking, act) && ShadowsAll(s.regs, known, s.ranks, regs) && act.Value?
    ensures Closes(f, op, ks, s, plain, asking, Next(h, f.code.pcs, op, ip, regs, act))
  {
    hide Shadows, RankOf, RankOfOp, Op.Successor, Op.Jumps, ShadowsAll, ShadowsLocals, Func.ValidOp, LocalRanksAfter, DeclaredAfter, Depart;
    if plain.Going? && op.HasDest() {
      PutShadows(s.regs, known, s.ranks, regs, op.d, asking.regs[op.d], plain.regs[op.d], RankOfOp(f, op, ks, s), act.v);
    }
  }

  lemma TestCloses<X>(h: Host<Val, Frame<X>>, f: Func, op: Op, ip: nat, ks: seq<Rank>, s: Facts, known: seq<Av>, plain: Case, asking: Case, regs: seq<Val>,
                      act: Act<Val, Frame<X>>)
    requires |ks| >= Arity(op) && f.ValidOp(op) && |s.regs| == |known| == |regs| == |s.ranks| && (op.HasDest() ==> op.d < |regs|)
    requires Exposes(f, op, ip, ks, s, known, plain, asking, act) && ShadowsAll(s.regs, known, s.ranks, regs) && act.Test? && op.Jumps()
    ensures Closes(f, op, ks, s, plain, asking, Next(h, f.code.pcs, op, ip, regs, act))
  {
    hide Shadows, RankOf, RankOfOp, Op.Successor, ShadowsAll, ShadowsLocals, Func.ValidOp, LocalRanksAfter, DeclaredAfter, Depart;
  }

  /** One step: where the run goes on as the plain walk has it, the asking walk goes along. */
  lemma StepExposes<X(!new)>(o: Outside<X>, f: Func, firstTruthy: bool, ip: nat, s: Facts, known: seq<Av>, locals: seq<Av>, regs: seq<Val>, fr: Frame<X>)
    requires Hostile(o, s.trust) && f.Valid() && s.Sized(f) && |known| == |regs| == f.Width() && ip < |f.code.ops|
    requires Shadowed(s, known, locals, regs, fr)
    ensures var t := Step(Framed(o, f.consts), f.code, At(ip, regs, fr));
            match NextCase(o, f, firstTruthy, ip, known, locals)
            case GivesUp => true
            case Gives(a) => t.Ended? && t.how.Returned? ==>
              CheckOp(o, f, firstTruthy, ip, s).Comes? && Shadows(CheckOp(o, f, firstTruthy, ip, s).a, a, t.how.v)
            case Going(to, known', locals') => t.At? && t.ip == to ==>
              CheckOp(o, f, firstTruthy, ip, s).Onward? && CheckOp(o, f, firstTruthy, ip, s).ip == to
              && Shadowed(CheckOp(o, f, firstTruthy, ip, s).s, known', locals', t.regs, t.w)
  {
    hide OpCase, Perform, Op.Reads, Hostile, Func.ValidOp, ShadowsAll, ShadowsLocals, StaysSurely, Exposes, RanksAfter, LocalRanksAfter, DeclaredAfter,
         Shadows, Next;
    var op, h := f.code.ops[ip], Framed(o, f.consts);
    var from := op.Reads(f.code.lists);
    var ks, vs := RanksRead(f, op, s), Fetch(regs, from);
    if Joins(op, ip) {
      JoinKeeps(o, f, firstTruthy, ip, s);
      JoinCase(o, f, firstTruthy, ip, known, locals);
      JoinSteps(o, f, ip, regs, fr);
    } else {
      StepIsNext(h, f.code, ip, regs, fr);
      FetchShadows(s.regs, known, s.ranks, regs, from);
      OpExposes(o, f, op, firstTruthy, ip, ks, s, known, locals, Fetch(s.regs, from), Fetch(known, from), vs, fr);
      ExposesCloses(h, f, op, ip, ks, s, known, NextCase(o, f, firstTruthy, ip, known, locals), NextCase(o, f, firstTruthy, ip, s.regs, s.locals), regs,
                    Perform(h, op, vs, fr));
    }
  }

  /** A run that follows the plain walk shows that the asking walk comes out the same. */
  lemma {:induction false} FollowsExposes<X(!new)>(o: Outside<X>, f: Func, args: seq<Val>, firstTruthy: bool, ip: nat, s: Facts, known: seq<Av>,
                                                   locals: seq<Av>, regs: seq<Val>, fr: Frame<X>, n: nat)
    requires Hostile(o, s.trust) && AllScalar(args) && f.Valid() && s.Sized(f) && |known| == |regs| == f.Width()
    requires Shadowed(s, known, locals, regs, fr) && Follows(o, f, args, firstTruthy, true, ip, known, locals, At(ip, regs, fr), n)
    ensures Walk(o, f, firstTruthy, ip, known, locals, n).Some?
    ensures CheckedWalk(o, f, firstTruthy, ip, s, n) == Walk(o, f, firstTruthy, ip, known, locals, n)
    decreases n
  {
    hide NextCase, Step, Hostile, Shadowed, CheckOp;
    BeyondGivesUp(o, f, firstTruthy, ip, known, locals);
    StepExposes(o, f, firstTruthy, ip, s, known, locals, regs, fr);
    var t := Step(Framed(o, f.consts), f.code, At(ip, regs, fr));
    match NextCase(o, f, firstTruthy, ip, known, locals)
    case Gives(a) =>
    case Going(to, known', locals') =>
      FollowsExposes(o, f, args, firstTruthy, to, CheckOp(o, f, firstTruthy, ip, s).s, known', locals', t.regs, t.w, n - 1);
  }

  lemma BeyondGivesUp<X>(o: Outside<X>, f: Func, firstTruthy: bool, ip: nat, known: seq<Av>, locals: seq<Av>)
    requires f.Valid() && |known| == f.Width()
    ensures !NextCase(o, f, firstTruthy, ip, known, locals).GivesUp? ==> ip < |f.code.ops|
  {
  }

  // ----- The walks use the outside for numbers only -----

  lemma BinarySame<X>(o: Outside<X>, p: Outside<X>, bin: BinaryOp, a: Av, b: Av)
    requires SameNumbers(o, p)
    ensures AvBinary(o, bin, a, b) == AvBinary(p, bin, a, b)
  {
  }

  lemma OpCaseSame<X>(o: Outside<X>, p: Outside<X>, f: Func, op: Op, firstTruthy: bool, ip: nat, known: seq<Av>, regs: seq<Av>, locals: seq<Av>)
    requires SameNumbers(o, p)
    requires op.ListFits(f.code.lists) && f.ValidOp(op) && |known| == |op.Reads(f.code.lists)| && (op.HasDest() ==> op.d < |regs|)
    ensures OpCase(o, f, op, firstTruthy, ip, known, regs, locals) == OpCase(p, f, op, firstTruthy, ip, known, regs, locals)
  {
    hide AvBinary, AvUnary, VariableCase, JumpCase, SameNumbers, Op.Reads, Op.HasDest;
    ArityFits(op, f.code.lists);
    if op.Binary? {
      BinarySame(o, p, op.bin, known[0], known[1]);
    } else if op.BinK? {
      BinarySame(o, p, op.bin, known[0], Known(Numeric(op.n)));
    } else if op.KBin? {
      BinarySame(o, p, op.bin, Known(Numeric(op.n)), known[0]);
    }
  }

  lemma NextCaseSame<X>(o: Outside<X>, p: Outside<X>, f: Func, firstTruthy: bool, ip: nat, regs: seq<Av>, locals: seq<Av>)
    requires SameNumbers(o, p) && f.Valid() && |regs| == f.Width()
    ensures NextCase(o, f, firstTruthy, ip, regs, locals) == NextCase(p, f, firstTruthy, ip, regs, locals)
  {
    hide OpCase, SameNumbers, Op.Reads, Func.ValidOp;
    if ip < |f.code.ops| {
      var op := f.code.ops[ip];
      OpCaseSame(o, p, f, op, firstTruthy, ip, Fetch(regs, op.Reads(f.code.lists)), regs, locals);
    }
  }

  lemma {:induction false} WalkSame<X>(o: Outside<X>, p: Outside<X>, f: Func, firstTruthy: bool, ip: nat, regs: seq<Av>, locals: seq<Av>, n: nat)
    requires SameNumbers(o, p) && f.Valid() && |regs| == f.Width()
    ensures Walk(o, f, firstTruthy, ip, regs, locals, n) == Walk(p, f, firstTruthy, ip, regs, locals, n)
    decreases n
  {
    hide NextCase, SameNumbers, Func.Valid;
    if n > 0 {
      NextCaseSame(o, p, f, firstTruthy, ip, regs, locals);
      match NextCase(o, f, firstTruthy, ip, regs, locals)
      case Going(to, regs', locals') => WalkSame(o, p, f, firstTruthy, to, regs', locals', n - 1);
      case _ =>
    }
  }

  lemma {:induction false} CheckedWalkSame<X>(o: Outside<X>, p: Outside<X>, f: Func, firstTruthy: bool, ip: nat, s: Facts, n: nat)
    requires SameNumbers(o, p) && f.Valid() && s.Sized(f)
    ensures CheckedWalk(o, f, firstTruthy, ip, s, n) == CheckedWalk(p, f, firstTruthy, ip, s, n)
    decreases n
  {
    hide NextCase, SameNumbers, Func.Valid, StaysSurely, RanksAfter, LocalRanksAfter, DeclaredAfter, RanksRead;
    if n > 0 && ip < |f.code.ops| {
      NextCaseSame(o, p, f, firstTruthy, ip, s.regs, s.locals);
      match CheckOp(o, f, firstTruthy, ip, s)
      case Onward(to, r) => CheckedWalkSame(o, p, f, firstTruthy, to, r, n - 1);
      case _ =>
    }
  }

  // ----- Whole calls -----

  /** A first argument as asked for that is no number. */
  function HostileArg(firstTruthy: bool): (v: Val)
    ensures v.Scalar() && Truthy(v) == firstTruthy && RankOf(v) == IsScalar
  {
    Str(if firstTruthy then "a" else "")
  }

  function HostileRegs(f: Func, firstTruthy: bool): (regs: seq<Val>)
    ensures CallRegs(f, [HostileArg(firstTruthy)], regs)
  {
    seq(f.Width(), r => if r >= f.nregs then Other(0) else if r == 4 then HostileArg(firstTruthy) else Undef)
  }

  lemma FirstShadows<X>(f: Func, firstTruthy: bool, x: X, trust: Trust)
    ensures Shadowed(FirstFacts(f, trust), FirstRegs(f), FirstLocals(f), HostileRegs(f, firstTruthy), Frame(f.init, x))
  {
    hide HostileArg;
    assert RankOf(Other(0)) == IsAny && RankOf(Undef) == IsScalar;
    var fr := Frame(f.init, x);
    assert ShadowsLocals(FirstLocals(f), FirstLocals(f), FirstFacts(f, trust).localRanks, FirstFacts(f, trust).declared, fr.locals) by {
      hide HostileRegs;
    }
  }

  /** The call with these arguments, from these registers and this world, goes where the plain walk goes, and
      changes nothing outside. */
  ghost predicate CallFollows<X>(o: Outside<X>, f: Func, firstTruthy: bool, args: seq<Val>, regs: seq<Val>, x: X)
    requires f.Valid() && AllScalar(args) && CallRegs(f, args, regs)
  {
    Follows(o, f, args, firstTruthy, true, f.entry, FirstRegs(f), FirstLocals(f), At(f.entry, regs, Frame(f.init, x)), SUMMARY_STEPS)
  }

  lemma ContainedCalls<X(!new)>(o: Outside<X>, p: Outside<X>, f: Func, firstTruthy: bool, trust: Trust, args: seq<Val>, regs: seq<Val>, x: X)
    requires f.Valid() && AllScalar(args) && CallRegs(f, args, regs) && firstTruthy == Truthy(ArgAt(args, 0)) && !trust.Operators?
    requires SameNumbers(o, p) && Trusted(p, trust) && Contained(o, f, firstTruthy, trust)
    ensures CallFollows(p, f, firstTruthy, args, regs, x)
  {
    hide Walk, CheckedWalk, Covers, Follows, RefinesAll, SameNumbers, Trusted;
    WalkSame(o, p, f, firstTruthy, f.entry, FirstRegs(f), FirstLocals(f), SUMMARY_STEPS);
    CheckedWalkSame(o, p, f, firstTruthy, f.entry, FirstFacts(f, trust), SUMMARY_STEPS);
    FirstCovers(p, f, args, regs, x, trust);
    ContainedFollows(p, f, args, firstTruthy, f.entry, FirstFacts(f, trust), FirstRegs(f), FirstLocals(f), regs, Frame(f.init, x), SUMMARY_STEPS);
  }

  lemma HostileCalls<X(!new)>(o: Outside<X>, f: Func, firstTruthy: bool, trust: Trust, x: X)
    requires f.Valid() && !trust.Operators?
    requires CallFollows(Spoiled(o, trust), f, firstTruthy, [HostileArg(firstTruthy)], HostileRegs(f, firstTruthy), x)
    ensures Contained(o, f, firstTruthy, trust)
  {
    hide Walk, CheckedWalk, Follows, Shadowed;
    var p, args := Spoiled(o, trust), [HostileArg(firstTruthy)];
    assert SameNumbers(o, p) && Hostile(p, trust);
    FirstShadows(f, firstTruthy, x, trust);
    FollowsExposes(p, f, args, firstTruthy, f.entry, FirstFacts(f, trust), FirstRegs(f), FirstLocals(f), HostileRegs(f, firstTruthy), Frame(f.init, x),
                   SUMMARY_STEPS);
    WalkSame(o, p, f, firstTruthy, f.entry, FirstRegs(f), FirstLocals(f), SUMMARY_STEPS);
    CheckedWalkSame(o, p, f, firstTruthy, f.entry, FirstFacts(f, trust), SUMMARY_STEPS);
  }

  /** The exact condition, whether or not operators on scalars are trusted: the walk is contained if and only if
      every call on scalar arguments whose first is as truthy as assumed goes where the walk goes, whatever is in
      the temporaries, and whatever is outside, as far as trusted. */
  lemma ContainedExactly<X(!new)>(o: Outside<X>, f: Func, firstTruthy: bool, trust: Trust, x: X)
    requires f.Valid() && !trust.Operators?
    ensures Contained(o, f, firstTruthy, trust) <==>
              forall p: Outside<X>, args: seq<Val>, regs: seq<Val>, y: X ::
                SameNumbers(o, p) && Trusted(p, trust) && AllScalar(args) && CallRegs(f, args, regs) && firstTruthy == Truthy(ArgAt(args, 0)) ==>
                  CallFollows(p, f, firstTruthy, args, regs, y)
  {
    hide Contained, CallFollows, CallRegs, Func.Valid, SameNumbers, Trusted;
    if Contained(o, f, firstTruthy, trust) {
      forall p: Outside<X>, args: seq<Val>, regs: seq<Val>, y: X |
        SameNumbers(o, p) && Trusted(p, trust) && AllScalar(args) && CallRegs(f, args, regs) && firstTruthy == Truthy(ArgAt(args, 0))
        ensures CallFollows(p, f, firstTruthy, args, regs, y)
      {
        ContainedCalls(o, p, f, firstTruthy, trust, args, regs, y);
      }
    } else if CallFollows(Spoiled(o, trust), f, firstTruthy, [HostileArg(firstTruthy)], HostileRegs(f, firstTruthy), x) {
      HostileCalls(o, f, firstTruthy, trust, x);
    } else {
      SpoiledSame(o, trust);
    }
  }

  lemma SpoiledSame<X(!new)>(o: Outside<X>, trust: Trust)
    requires !trust.Operators?
    ensures SameNumbers(o, Spoiled(o, trust)) && Trusted(Spoiled(o, trust), trust)
  {
  }
}
