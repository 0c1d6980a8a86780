/** One op of a walk and one of a run: as long as the run stays in the function's own frame, it does
    what the walk says. */
module SummaryRuns {
  import opened Basics
  import opened Bytecode
  import opened Machine
  import opened Values
  import opened AbstractValues
  import opened Summaries

  // ----- What the walk knows, and what the run has -----

  ghost predicate CoversAll<X>(o: Outside<X>, args: seq<Val>, known: seq<Av>, vs: seq<Val>)
    requires AllScalar(args)
  {
    |known| == |vs| && forall i :: 0 <= i < |vs| ==> Denotes(o, args, known[i], vs[i])
  }

  /** Of a variable not yet declared nothing is known. */
  ghost predicate CoversLocal<X>(o: Outside<X>, args: seq<Val>, a: Av, v: Option<Val>)
    requires AllScalar(args)
  {
    if v.Some? then Denotes(o, args, a, v.value) else a == Unknown
  }

  ghost predicate CoversLocals<X>(o: Outside<X>, args: seq<Val>, known: seq<Av>, locals: seq<Option<Val>>)
    requires AllScalar(args)
  {
    |known| == |locals| && forall i :: 0 <= i < |locals| ==> CoversLocal(o, args, known[i], locals[i])
  }

  /** The op goes by a variable that is not declared yet, and so by one of an outer scope. */
  predicate Reaches<X>(op: Op, f: Frame<X>) {
    (op.VarS? || op.SetVarS? || op.SetVarK? || op.BrVarK?) && op.hops == 0 && !f.Declared(op.slot)
  }

  predicate Operates(op: Op) {
    op.Unary? || op.Binary? || op.BinK? || op.KBin?
  }

  /** The op stays in the frame: it goes by no variable of an outer scope, and its operator yields. */
  ghost predicate Stays<X>(o: Outside<X>, f: Func, ip: nat, regs: seq<Val>, fr: Frame<X>)
    requires f.Valid() && |regs| == f.Width() && ip < |f.code.ops|
  {
    !Reaches(f.code.ops[ip], fr) && (Operates(f.code.ops[ip]) ==> !StepsOff(o, f, ip, regs, fr))
  }

  ghost predicate StepsOff<X>(o: Outside<X>, f: Func, ip: nat, regs: seq<Val>, fr: Frame<X>)
    requires f.Valid() && |regs| == f.Width() && ip < |f.code.ops|
  {
    var op := f.code.ops[ip];
    ArityFits(op, f.code.lists);
    Perform(Framed(o, f.consts), op, Fetch(regs, op.Reads(f.code.lists)), fr).Leave?
  }

  lemma FetchCovers<X>(o: Outside<X>, args: seq<Val>, known: seq<Av>, regs: seq<Val>, from: seq<Reg>)
    requires AllScalar(args) && CoversAll(o, args, known, regs) && forall i :: 0 <= i < |from| ==> from[i] < |regs|
    ensures CoversAll(o, args, Fetch(known, from), Fetch(regs, from))
  {
    hide Denotes;
  }

  // ----- One op -----

  /** What the op did, against what the walk makes of it. */
  ghost predicate Agrees<X>(o: Outside<X>, args: seq<Val>, op: Op, ip: nat, regs: seq<Av>, c: Case, act: Act<Val, Frame<X>>)
    requires AllScalar(args) && (op.HasDest() ==> op.d < |regs|)
  {
    match c
    case GivesUp => true
    case Gives(a) => act.Leave? && act.e.Ends? && act.e.how.Returned? && Denotes(o, args, a, act.e.how.v)
    case Going(ip', regs', locals') =>
      if op.Jumps() then act.Test? && ip' == op.Successor(act.b, ip) && regs' == regs && CoversLocals(o, args, locals', act.w.locals)
      else
        && act.Value? && ip' == ip + 1 && CoversLocals(o, args, locals', act.w.locals)
        && if op.HasDest() then |regs'| == |regs| && regs' == regs[op.d := regs'[op.d]] && Denotes(o, args, regs'[op.d], act.v)
           else regs' == regs
  }

  /** Operators leave the variables of the function alone. */
  lemma OperatorsKeep<X>(o: Outside<X>, un: UnaryOp, bin: BinaryOp, l: Val, r: Val, fr: Frame<X>)
    ensures UnaryIn(o, un, l, fr).Yields? ==> UnaryIn(o, un, l, fr).w.locals == fr.locals
    ensures BinaryIn(o, bin, l, r, fr).Yields? ==> BinaryIn(o, bin, l, r, fr).w.locals == fr.locals
  {
  }

  lemma KnownDenotes<X>(o: Outside<X>, args: seq<Val>, v: Val)
    requires AllScalar(args)
    ensures Denotes(o, args, Known(v), v)
  {
  }

  /** What the walk makes of an operator. */
  function OperatorAv<X>(o: Outside<X>, op: Op, firstTruthy: bool, known: seq<Av>): Av
    requires Operates(op) && |known| >= Arity(op)
  {
    if op.Unary? then AvUnary(op.un, known[0], firstTruthy)
    else if op.Binary? then AvBinary(o, op.bin, known[0], known[1])
    else if op.BinK? then AvBinary(o, op.bin, known[0], Known(Numeric(op.n)))
    else AvBinary(o, op.bin, Known(Numeric(op.n)), known[0])
  }

  lemma OperatorIsCase<X>(o: Outside<X>, f: Func, op: Op, firstTruthy: bool, ip: nat, known: seq<Av>, regs: seq<Av>, locals: seq<Av>)
    requires Operates(op) && op.ListFits(f.code.lists) && f.ValidOp(op) && |known| == |op.Reads(f.code.lists)| >= Arity(op) && op.d < |regs|
    ensures OpCase(o, f, op, firstTruthy, ip, known, regs, locals) == Put(ip, regs, locals, op.d, OperatorAv(o, op, firstTruthy, known))
  {
    hide AvBinary, AvUnary, VariableCase, JumpCase;
  }

  lemma OperatorSound<X>(o: Outside<X>, f: Func, args: seq<Val>, op: Op, firstTruthy: bool, known: seq<Av>, vs: seq<Val>, fr: Frame<X>)
    requires AllScalar(args) && firstTruthy == Truthy(ArgAt(args, 0)) && Operates(op)
    requires CoversAll(o, args, known, vs) && |vs| >= Arity(op) && !Perform(Framed(o, f.consts), op, vs, fr).Leave?
    ensures var act := Perform(Framed(o, f.consts), op, vs, fr);
            act.Value? && act.w.locals == fr.locals && Denotes(o, args, OperatorAv(o, op, firstTruthy, known), act.v)
  {
    hide AvBinary, AvUnary, BinaryIn, UnaryIn, Denotes, Ask, Bare, Decide;
    if op.BinK? || op.KBin? {
      KnownDenotes(o, args, Numeric(op.n));
    }
    if op.Unary? {
      AvUnarySound(o, args, op.un, known[0], vs[0], firstTruthy, fr);
      OperatorsKeep(o, op.un, Addition, vs[0], vs[0], fr);
    } else if op.Binary? {
      AvBinarySound(o, args, op.bin, known[0], known[1], vs[0], vs[1], fr);
      OperatorsKeep(o, Void, op.bin, vs[0], vs[1], fr);
    } else if op.BinK? {
      AvBinarySound(o, args, op.bin, known[0], Known(Numeric(op.n)), vs[0], Numeric(op.n), fr);
      OperatorsKeep(o, Void, op.bin, vs[0], Numeric(op.n), fr);
    } else {
      AvBinarySound(o, args, op.bin, Known(Numeric(op.n)), known[0], Numeric(op.n), vs[0], fr);
      OperatorsKeep(o, Void, op.bin, Numeric(op.n), vs[0], fr);
    }
  }

  /** Ops that compute a value from their operands. */
  lemma OperatorAgrees<X>(o: Outside<X>, f: Func, args: seq<Val>, op: Op, firstTruthy: bool, ip: nat, known: seq<Av>, vs: seq<Val>,
                          regs: seq<Av>, locals: seq<Av>, fr: Frame<X>)
    requires AllScalar(args) && firstTruthy == Truthy(ArgAt(args, 0))
    requires op.ListFits(f.code.lists) && |known| == |op.Reads(f.code.lists)| && Operates(op) && op.d < |regs|
    requires CoversAll(o, args, known, vs) && CoversLocals(o, args, locals, fr.locals) && f.ValidOp(op) && |vs| >= Arity(op)
    requires !Perform(Framed(o, f.consts), op, vs, fr).Leave?
    ensures Agrees(o, args, op, ip, regs, OpCase(o, f, op, firstTruthy, ip, known, regs, locals), Perform(Framed(o, f.consts), op, vs, fr))
  {
    hide OpCase, Perform, OperatorAv, Op.Reads, Op.ListFits, CoversLocals, Denotes, Func.ValidOp;
    OperatorIsCase(o, f, op, firstTruthy, ip, known, regs, locals);
    OperatorSound(o, f, args, op, firstTruthy, known, vs, fr);
  }

  lemma VariableTest<X>(o: Outside<X>, f: Func, args: seq<Val>, op: Op, vs: seq<Val>, locals: seq<Av>, fr: Frame<X>)
    requires AllScalar(args) && op.BrVarK? && op.hops == 0 && fr.Declared(op.slot) && Compares(op.bin)
    requires CoversLocals(o, args, locals, fr.locals) && NumOf(locals[op.slot]).Some?
    ensures Decide(Framed(o, f.consts), op, vs, fr) == Test(CompareNumbers(op.bin, NumOf(locals[op.slot]).value, op.n), fr)
  {
    assert CoversLocal(o, args, locals[op.slot], fr.locals[op.slot]);
  }

  /** Ops that go by a variable of the function. */
  lemma VariableAgrees<X>(o: Outside<X>, f: Func, args: seq<Val>, op: Op, firstTruthy: bool, ip: nat, known: seq<Av>, vs: seq<Val>,
                          regs: seq<Av>, locals: seq<Av>, fr: Frame<X>)
    requires AllScalar(args)
    requires op.ListFits(f.code.lists) && |known| == |op.Reads(f.code.lists)| && InFrame(op) && (op.HasDest() ==> op.d < |regs|)
    requires CoversAll(o, args, known, vs) && CoversLocals(o, args, locals, fr.locals) && f.ValidOp(op) && |vs| >= Arity(op)
    requires !Reaches(op, fr)
    ensures Agrees(o, args, op, ip, regs, OpCase(o, f, op, firstTruthy, ip, known, regs, locals), Perform(Framed(o, f.consts), op, vs, fr))
  {
    hide Perform, OpCase, VariableCase, Agrees, Op.Reads, Op.ListFits, Arity, Denotes, CoversLocals;
    WritesOne(op, f.code.lists);
    VariableIsCase(o, f, op, firstTruthy, ip, known, regs, locals);
    if op.slot >= |locals| {
      OutOfFrame(o, args, op, ip, known, regs, locals, Perform(Framed(o, f.consts), op, vs, fr));
    } else if op.BrVarK? {
      TestPerforms(Framed(o, f.consts), op, vs, fr);
      TestAgrees(o, f, args, op, ip, known, vs, regs, locals, fr);
    } else {
      SlotCovers(o, args, locals, fr.locals, op.slot);
      VariablePerforms(o, f, op, vs, fr);
      if op.Local? || op.VarS? {
        ReadAgrees(o, args, op, ip, known, regs, locals, fr, Perform(Framed(o, f.consts), op, vs, fr));
      } else {
        if op.SetVarK? {
          KnownDenotes(o, args, Numeric(op.n));
        }
        WriteAgrees(o, args, op, ip, known, vs, regs, locals, fr, Perform(Framed(o, f.consts), op, vs, fr));
      }
    }
  }

  lemma OutOfFrame<X>(o: Outside<X>, args: seq<Val>, op: Op, ip: nat, known: seq<Av>, regs: seq<Av>, locals: seq<Av>, act: Act<Val, Frame<X>>)
    requires AllScalar(args) && InFrame(op) && (op.Decl? || op.SetVarS? ==> |known| > 0) && (op.HasDest() ==> op.d < |regs|)
    requires op.slot >= |locals|
    ensures Agrees(o, args, op, ip, regs, VariableCase(op, ip, known, regs, locals), act)
  {
  }

  lemma TestAgrees<X>(o: Outside<X>, f: Func, args: seq<Val>, op: Op, ip: nat, known: seq<Av>, vs: seq<Val>,
                      regs: seq<Av>, locals: seq<Av>, fr: Frame<X>)
    requires AllScalar(args) && op.BrVarK? && op.hops == 0 && fr.Declared(op.slot) && Compares(op.bin)
    requires CoversLocals(o, args, locals, fr.locals)
    ensures Agrees(o, args, op, ip, regs, VariableCase(op, ip, known, regs, locals), Decide(Framed(o, f.consts), op, vs, fr))
  {
    hide Decide;
    if NumOf(locals[op.slot]).Some? {
      VariableTest(o, f, args, op, vs, locals, fr);
    }
  }

  lemma ReadAgrees<X>(o: Outside<X>, args: seq<Val>, op: Op, ip: nat, known: seq<Av>, regs: seq<Av>, locals: seq<Av>, fr: Frame<X>,
                      act: Act<Val, Frame<X>>)
    requires AllScalar(args) && (op.Local? || (op.VarS? && op.hops == 0)) && op.d < |regs| && op.slot < |locals| == |fr.locals|
    requires CoversLocals(o, args, locals, fr.locals) && Denotes(o, args, locals[op.slot], fr.locals[op.slot].Or(Undef))
    requires act == Value(fr.locals[op.slot].Or(Undef), fr)
    ensures Agrees(o, args, op, ip, regs, VariableCase(op, ip, known, regs, locals), act)
  {
    hide Denotes, CoversLocals;
  }

  lemma WriteAgrees<X>(o: Outside<X>, args: seq<Val>, op: Op, ip: nat, known: seq<Av>, vs: seq<Val>, regs: seq<Av>, locals: seq<Av>,
                       fr: Frame<X>, act: Act<Val, Frame<X>>)
    requires AllScalar(args) && (op.Decl? || op.SetVarS? || op.SetVarK?) && InFrame(op) && op.slot < |locals|
    requires CoversLocals(o, args, locals, fr.locals) && CoversAll(o, args, known, vs) && (!op.SetVarK? ==> |vs| == 1)
    requires op.SetVarK? ==> Denotes(o, args, Known(Numeric(op.n)), Numeric(op.n))
    requires |locals| == |fr.locals| && act.Value?
    requires act.w == fr.(locals := fr.locals[op.slot := Some(if op.SetVarK? then Numeric(op.n) else vs[0])])
    ensures Agrees(o, args, op, ip, regs, VariableCase(op, ip, known, regs, locals), act)
  {
    hide Denotes, CoversLocals;
    if op.SetVarK? {
      WriteCovers(o, args, locals, fr.locals, op.slot, Known(Numeric(op.n)), Numeric(op.n));
    } else {
      WriteCovers(o, args, locals, fr.locals, op.slot, known[0], vs[0]);
    }
  }

  lemma SlotCovers<X>(o: Outside<X>, args: seq<Val>, known: seq<Av>, locals: seq<Option<Val>>, s: nat)
    requires AllScalar(args) && CoversLocals(o, args, known, locals) && s < |known|
    ensures |locals| == |known| && Denotes(o, args, known[s], locals[s].Or(Undef))
  {
    assert CoversLocal(o, args, known[s], locals[s]);
  }

  lemma WriteCovers<X>(o: Outside<X>, args: seq<Val>, known: seq<Av>, locals: seq<Option<Val>>, s: nat, a: Av, v: Val)
    requires AllScalar(args) && CoversLocals(o, args, known, locals) && s < |known| && Denotes(o, args, a, v)
    ensures |locals| == |known| && CoversLocals(o, args, known[s := a], locals[s := Some(v)])
  {
    hide Denotes;
  }

  lemma WritesOne(op: Op, lists: seq<Reg>)
    requires op.Decl? || op.SetVarS? ==> op.ListFits(lists)
    ensures op.Decl? || op.SetVarS? ==> |op.Reads(lists)| == 1
  {
  }

  lemma VariableIsCase<X>(o: Outside<X>, f: Func, op: Op, firstTruthy: bool, ip: nat, known: seq<Av>, regs: seq<Av>, locals: seq<Av>)
    requires op.ListFits(f.code.lists) && |known| == |op.Reads(f.code.lists)| && InFrame(op) && f.ValidOp(op)
    requires op.HasDest() ==> op.d < |regs|
    ensures OpCase(o, f, op, firstTruthy, ip, known, regs, locals) == VariableCase(op, ip, known, regs, locals)
  {
    hide VariableCase;
  }

  lemma TestPerforms<V, W>(h: Host<V, W>, op: Op, vs: seq<V>, w: W)
    requires op.BrVarK?
    ensures Perform(h, op, vs, w) == Decide(h, op, vs, w)
  {
    hide Decide;
  }

  /** A variable of the function itself is read or written on the spot. */
  lemma VariablePerforms<X>(o: Outside<X>, f: Func, op: Op, vs: seq<Val>, fr: Frame<X>)
    requires InFrame(op) && !op.BrVarK? && op.slot < |fr.locals| && !Reaches(op, fr)
    requires op.Decl? || op.SetVarS? ==> |vs| == 1
    ensures var act := Perform(Framed(o, f.consts), op, vs, fr);
            act.Value? && act.w ==
              (if op.Decl? || op.SetVarS? then fr.(locals := fr.locals[op.slot := Some(vs[0])])
               else if op.SetVarK? then fr.(locals := fr.locals[op.slot := Some(Numeric(op.n))])
               else fr)
            && (op.Local? ==> act.v == fr.locals[op.slot].Or(Undef)) && (op.VarS? ==> act.v == fr.locals[op.slot].value)
  {
    hide Decide, BinaryIn, UnaryIn;
  }

  /** Jumps that go by a register. */
  lemma JumpAgrees<X>(o: Outside<X>, f: Func, args: seq<Val>, op: Op, firstTruthy: bool, ip: nat, known: seq<Av>, vs: seq<Val>,
                      regs: seq<Av>, locals: seq<Av>, fr: Frame<X>)
    requires AllScalar(args) && firstTruthy == Truthy(ArgAt(args, 0))
    requires op.ListFits(f.code.lists) && |known| == |op.Reads(f.code.lists)| && op.Jumps() && !op.BrVarK?
    requires CoversAll(o, args, known, vs) && CoversLocals(o, args, locals, fr.locals) && f.ValidOp(op) && |vs| >= Arity(op)
    ensures Agrees(o, args, op, ip, regs, OpCase(o, f, op, firstTruthy, ip, known, regs, locals), Perform(Framed(o, f.consts), op, vs, fr))
  {
    hide Perform, OpCase, CoversLocals, Decide, Denotes, Op.ListFits;
    JumpIsDecided(Framed(o, f.consts), op, vs, fr);
    JumpIsCase(o, f, op, firstTruthy, ip, known, regs, locals);
    if op.BrK? {
      RegisterTest(o, f, args, op, known, vs, fr);
    } else if !op.J? && !op.Jn? {
      TruthTest(o, f, args, op, firstTruthy, known, vs, fr);
    } else if op.J? {
      PlainTest(Framed(o, f.consts), op, vs, fr);
    }
  }

  lemma PlainTest<V, W>(h: Host<V, W>, op: Op, vs: seq<V>, w: W)
    requires op.J? && |vs| >= Arity(op)
    ensures Decide(h, op, vs, w) == Test(true, w)
  {
  }

  lemma RegisterTest<X>(o: Outside<X>, f: Func, args: seq<Val>, op: Op, known: seq<Av>, vs: seq<Val>, fr: Frame<X>)
    requires AllScalar(args) && op.BrK? && Compares(op.bin) && |vs| == |known| == 1 && CoversAll(o, args, known, vs)
    ensures NumOf(known[0]).Some? ==>
              Decide(Framed(o, f.consts), op, vs, fr) == Test(CompareNumbers(op.bin, NumOf(known[0]).value, op.n), fr)
  {
    assert Denotes(o, args, known[0], vs[0]);
  }

  lemma TruthTest<X>(o: Outside<X>, f: Func, args: seq<Val>, op: Op, firstTruthy: bool, known: seq<Av>, vs: seq<Val>, fr: Frame<X>)
    requires AllScalar(args) && firstTruthy == Truthy(ArgAt(args, 0))
    requires (op.Jf? || op.Jt? || op.Br?) && |vs| == |known| == 1 && CoversAll(o, args, known, vs)
    ensures TruthOf(known[0], firstTruthy).Some? ==>
              Decide(Framed(o, f.consts), op, vs, fr) == Test(TruthOf(known[0], firstTruthy).value, fr)
  {
    assert Denotes(o, args, known[0], vs[0]);
  }

  lemma JumpIsDecided<V, W>(h: Host<V, W>, op: Op, vs: seq<V>, w: W)
    requires op.Jumps() && |vs| >= Arity(op)
    ensures Perform(h, op, vs, w) == Decide(h, op, vs, w)
  {
    hide Decide, Ask;
  }

  lemma JumpIsCase<X>(o: Outside<X>, f: Func, op: Op, firstTruthy: bool, ip: nat, known: seq<Av>, regs: seq<Av>, locals: seq<Av>)
    requires op.ListFits(f.code.lists) && |known| == |op.Reads(f.code.lists)| && op.Jumps() && !op.BrVarK? && f.ValidOp(op)
    ensures OpCase(o, f, op, firstTruthy, ip, known, regs, locals) == JumpCase(op, firstTruthy, ip, known, regs, locals)
  {
    hide JumpCase;
  }

  /** The ops that set a register to something known, or to something of which nothing is known. */
  lemma PlainAgrees<X>(o: Outside<X>, f: Func, args: seq<Val>, op: Op, firstTruthy: bool, ip: nat, known: seq<Av>, vs: seq<Val>,
                       regs: seq<Av>, locals: seq<Av>, fr: Frame<X>)
    requires AllScalar(args) && !Operates(op) && !InFrame(op) && !op.Jumps()
    requires op.ListFits(f.code.lists) && |known| == |op.Reads(f.code.lists)| && (op.HasDest() ==> op.d < |regs|)
    requires CoversAll(o, args, known, vs) && CoversLocals(o, args, locals, fr.locals) && f.ValidOp(op) && |vs| >= Arity(op)
    ensures Agrees(o, args, op, ip, regs, OpCase(o, f, op, firstTruthy, ip, known, regs, locals), Perform(Framed(o, f.consts), op, vs, fr))
  {
    hide CoversLocals, AvBinary, AvUnary, VariableCase, JumpCase, BinaryIn, UnaryIn, ActIn, Decide;
  }

  lemma OpAgrees<X>(o: Outside<X>, f: Func, args: seq<Val>, op: Op, firstTruthy: bool, ip: nat, known: seq<Av>, vs: seq<Val>,
                    regs: seq<Av>, locals: seq<Av>, fr: Frame<X>)
    requires AllScalar(args) && firstTruthy == Truthy(ArgAt(args, 0))
    requires op.ListFits(f.code.lists) && |known| == |op.Reads(f.code.lists)| && (op.HasDest() ==> op.d < |regs|)
    requires CoversAll(o, args, known, vs) && CoversLocals(o, args, locals, fr.locals) && f.ValidOp(op) && |vs| >= Arity(op)
    requires !Reaches(op, fr) && !(Operates(op) && Perform(Framed(o, f.consts), op, vs, fr).Leave?)
    ensures Agrees(o, args, op, ip, regs, OpCase(o, f, op, firstTruthy, ip, known, regs, locals), Perform(Framed(o, f.consts), op, vs, fr))
  {
    hide Agrees, OpCase, Perform, CoversAll, CoversLocals, Op.Reads, Op.ListFits, Func.ValidOp, Reaches, Arity;
    if Operates(op) {
      OperatorAgrees(o, f, args, op, firstTruthy, ip, known, vs, regs, locals, fr);
    } else if InFrame(op) {
      VariableAgrees(o, f, args, op, firstTruthy, ip, known, vs, regs, locals, fr);
    } else if op.BrVarK? {
      FarTest(o, f, args, op, firstTruthy, ip, known, vs, regs, locals, fr);
    } else if op.Jumps() {
      JumpAgrees(o, f, args, op, firstTruthy, ip, known, vs, regs, locals, fr);
    } else {
      PlainAgrees(o, f, args, op, firstTruthy, ip, known, vs, regs, locals, fr);
    }
  }

  /** A branch on a variable of an outer scope ends the walk. */
  lemma FarCase<X>(o: Outside<X>, f: Func, op: Op, firstTruthy: bool, ip: nat, known: seq<Av>, regs: seq<Av>, locals: seq<Av>)
    requires op.ListFits(f.code.lists) && f.ValidOp(op) && |known| == |op.Reads(f.code.lists)| && (op.HasDest() ==> op.d < |regs|)
    requires op.BrVarK? && !InFrame(op)
    ensures OpCase(o, f, op, firstTruthy, ip, known, regs, locals).GivesUp?
  {
  }

  lemma FarTest<X>(o: Outside<X>, f: Func, args: seq<Val>, op: Op, firstTruthy: bool, ip: nat, known: seq<Av>, vs: seq<Val>,
                   regs: seq<Av>, locals: seq<Av>, fr: Frame<X>)
    requires AllScalar(args) && op.BrVarK? && !InFrame(op) && |vs| >= Arity(op) && f.ValidOp(op)
    requires op.ListFits(f.code.lists) && |known| == |op.Reads(f.code.lists)|
    ensures Agrees(o, args, op, ip, regs, OpCase(o, f, op, firstTruthy, ip, known, regs, locals), Perform(Framed(o, f.consts), op, vs, fr))
  {
    hide Perform;
  }

  // ----- The run -----

  /** One step of the walk and one of the run. */
  lemma StepCovers<X>(o: Outside<X>, f: Func, args: seq<Val>, firstTruthy: bool, ip: nat, known: seq<Av>, locals: seq<Av>,
                      regs: seq<Val>, fr: Frame<X>)
    requires AllScalar(args) && firstTruthy == Truthy(ArgAt(args, 0)) && f.Valid() && |regs| == f.Width()
    requires CoversAll(o, args, known, regs) && CoversLocals(o, args, locals, fr.locals)
    requires ip < |f.code.ops| ==> Stays(o, f, ip, regs, fr)
    ensures var c := NextCase(o, f, firstTruthy, ip, known, locals);
            var t := Step(Framed(o, f.consts), f.code, At(ip, regs, fr));
            match c
            case GivesUp => true
            case Gives(a) => t.Ended? && t.how.Returned? && Denotes(o, args, a, t.how.v)
            case Going(ip', known', locals') =>
              && t.At? && t.ip == ip' && |known'| == |t.regs| == f.Width()
              && CoversAll(o, args, known', t.regs) && CoversLocals(o, args, locals', t.w.locals)
  {
    hide OpCase, Perform, CoversLocals, Denotes, Op.Reads, Reaches, Func.ValidOp;
    if ip < |f.code.ops| {
      var op, h := f.code.ops[ip], Framed(o, f.consts);
      var vs := Fetch(regs, op.Reads(f.code.lists));
      StepIsNext(h, f.code, ip, regs, fr);
      FetchCovers(o, args, known, regs, op.Reads(f.code.lists));
      OpAgrees(o, f, args, op, firstTruthy, ip, Fetch(known, op.Reads(f.code.lists)), vs, known, locals, fr);
    }
  }

  // ----- Mixes stay tidy -----

  predicate TidyAll(known: seq<Av>) {
    forall i :: 0 <= i < |known| ==> Tidy(known[i])
  }

  predicate CaseTidy(c: Case) {
    (c.Going? ==> TidyAll(c.regs) && TidyAll(c.locals)) && (c.Gives? ==> Tidy(c.a))
  }

  lemma VariableTidy(op: Op, ip: nat, args: seq<Av>, regs: seq<Av>, locals: seq<Av>)
    requires InFrame(op) && (op.Decl? || op.SetVarS? ==> |args| > 0) && (op.HasDest() ==> op.d < |regs|)
    requires TidyAll(args) && TidyAll(regs) && TidyAll(locals)
    ensures CaseTidy(VariableCase(op, ip, args, regs, locals))
  {
    hide CompareKnown, Op.Successor;
  }

  lemma PutTidy<X>(o: Outside<X>, f: Func, op: Op, firstTruthy: bool, ip: nat, args: seq<Av>, regs: seq<Av>, locals: seq<Av>)
    requires op.ListFits(f.code.lists) && f.ValidOp(op) && |args| == |op.Reads(f.code.lists)| && (op.HasDest() ==> op.d < |regs|)
    requires TidyAll(args) && TidyAll(regs) && TidyAll(locals) && !InFrame(op) && !op.Jumps()
    ensures CaseTidy(OpCase(o, f, op, firstTruthy, ip, args, regs, locals))
  {
    hide AvBinary, VariableCase, JumpCase, TruthOf;
    if op.Binary? {
      AvBinaryTidy(o, op.bin, args[0], args[1]);
    } else if op.BinK? {
      AvBinaryTidy(o, op.bin, args[0], Known(Numeric(op.n)));
    } else if op.KBin? {
      AvBinaryTidy(o, op.bin, Known(Numeric(op.n)), args[0]);
    }
  }

  lemma OpCaseTidy<X>(o: Outside<X>, f: Func, op: Op, firstTruthy: bool, ip: nat, args: seq<Av>, regs: seq<Av>, locals: seq<Av>)
    requires op.ListFits(f.code.lists) && f.ValidOp(op) && |args| == |op.Reads(f.code.lists)| && (op.HasDest() ==> op.d < |regs|)
    requires TidyAll(args) && TidyAll(regs) && TidyAll(locals)
    ensures CaseTidy(OpCase(o, f, op, firstTruthy, ip, args, regs, locals))
  {
    hide OpCase, VariableCase, Op.Reads, Op.ListFits, Tidy, Func.ValidOp, Arity, Op.Successor;
    ArityFits(op, f.code.lists);
    if InFrame(op) {
      WritesOne(op, f.code.lists);
      VariableIsCase(o, f, op, firstTruthy, ip, args, regs, locals);
      VariableTidy(op, ip, args, regs, locals);
    } else if op.BrVarK? {
      FarCase(o, f, op, firstTruthy, ip, args, regs, locals);
    } else if op.Jumps() {
      JumpIsCase(o, f, op, firstTruthy, ip, args, regs, locals);
    } else {
      PutTidy(o, f, op, firstTruthy, ip, args, regs, locals);
    }
  }

  /** What a walk comes out as is tidy. */
  lemma {:induction false} WalkTidy<X>(o: Outside<X>, f: Func, firstTruthy: bool, ip: nat, regs: seq<Av>, locals: seq<Av>, n: nat)
    requires f.Valid() && |regs| == f.Width() && TidyAll(regs) && TidyAll(locals)
    ensures Walk(o, f, firstTruthy, ip, regs, locals, n).Some? ==> Tidy(Walk(o, f, firstTruthy, ip, regs, locals, n).value)
    decreases n
  {
    hide OpCase, Op.Reads, Tidy, Func.ValidOp;
    if n > 0 && ip < |f.code.ops| {
      var op := f.code.ops[ip];
      OpCaseTidy(o, f, op, firstTruthy, ip, Fetch(regs, op.Reads(f.code.lists)), regs, locals);
      match NextCase(o, f, firstTruthy, ip, regs, locals)
      case Going(ip', regs', locals') => WalkTidy(o, f, firstTruthy, ip', regs', locals', n - 1);
      case _ =>
    }
  }

  lemma WalkedTidy<X>(o: Outside<X>, f: Func, firstTruthy: bool)
    requires f.Valid()
    ensures Walked(o, f, firstTruthy).Some? ==> Tidy(Walked(o, f, firstTruthy).value)
  {
    hide Walk, Func.Valid;
    WalkTidy(o, f, firstTruthy, f.entry, FirstRegs(f), FirstLocals(f), SUMMARY_STEPS);
  }
}
