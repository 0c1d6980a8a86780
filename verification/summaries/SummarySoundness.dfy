/** Summaries are sound where the walk is contained: then a run of the function on scalar arguments, from
    whatever temporaries, takes the path of the walk and returns what the summary says. */
module SummarySoundness {
  import opened Numbers
  import opened Basics
  import opened Bytecode
  import opened Machine
  import opened Values
  import opened AbstractValues
  import opened Summaries
  import opened SummaryRuns
  import opened ContainedWalks

  // ----- Facts and states -----

  ghost predicate RanksHold(ks: seq<Rank>, vs: seq<Val>) {
    |ks| == |vs| && forall i :: 0 <= i < |vs| ==> HasRank(ks[i], vs[i])
  }

  ghost predicate LocalsHold(s: Facts, locals: seq<Option<Val>>) {
    && |s.localRanks| == |s.declared| == |locals|
    && forall i :: 0 <= i < |locals| ==> LocalHolds(s.localRanks[i], s.declared[i], locals[i])
  }

  predicate LocalHolds(k: Rank, declared: bool, v: Option<Val>) {
    HasRank(k, v.Or(Undef)) && declared == v.Some?
  }

  ghost predicate Covers<X>(o: Outside<X>, args: seq<Val>, s: Facts, regs: seq<Val>, fr: Frame<X>)
    requires AllScalar(args)
  {
    && CoversAll(o, args, s.regs, regs) && CoversLocals(o, args, s.locals, fr.locals)
    && RanksHold(s.ranks, regs) && LocalsHold(s, fr.locals)
  }

  // ----- One op stays in the frame -----

  /** On these ranks, and on these alone, the frame computes by itself. */
  lemma InnerBinary<X>(o: Outside<X>, bin: BinaryOp, l: Val, r: Val, fr: Frame<X>)
    ensures var e := BinaryIn(o, bin, l, r, fr);
            if Inner2(bin, RankOf(l), RankOf(r)) then e.Yields? && e.w == fr && RankOf(e.r) == (if Compares(bin) then IsScalar else IsNumber)
            else e == Lift(o.binary(bin, l, r, fr.rest), fr)
  {
    hide CompareNumbers, OrWords, XorWords, ToInt32;
  }

  /** Exact ranks serve as well as any that a value has. */
  lemma InnerRanks(bin: BinaryOp, j: Rank, k: Rank, l: Val, r: Val)
    requires HasRank(j, l) && HasRank(k, r)
    ensures Inner2(bin, j, k) ==> Inner2(bin, RankOf(l), RankOf(r))
    ensures Meek2(bin, j, k) ==> Meek2(bin, RankOf(l), RankOf(r))
  {
  }

  lemma BinaryYields<X(!new)>(o: Outside<X>, bin: BinaryOp, j: Rank, k: Rank, l: Val, r: Val, fr: Frame<X>, trust: Trust)
    requires HasRank(j, l) && HasRank(k, r) && Trusted(o, trust) && (Sure2(bin, j, k, trust) || trust.Operators?)
    ensures var e := BinaryIn(o, bin, l, r, fr);
            && e.Yields? && e.w.locals == fr.locals
            && (Sure2(bin, j, k, trust) ==> e.w == fr && HasRank(Rank2(bin, j, k), e.r))
  {
    hide BinaryIn, Inner2, Meek2, Compares;
    InnerBinary(o, bin, l, r, fr);
    InnerRanks(bin, j, k, l, r);
  }

  lemma UnaryYields<X(!new)>(o: Outside<X>, un: UnaryOp, k: Rank, v: Val, fr: Frame<X>, trust: Trust)
    requires HasRank(k, v) && Trusted(o, trust) && (Sure1(un, k, trust) || trust.Operators?)
    ensures var e := UnaryIn(o, un, v, fr);
            && e.Yields? && e.w.locals == fr.locals
            && (Sure1(un, k, trust) ==> e.w == fr && HasRank(Rank1(un, k), e.r))
  {
    hide Truthy;
  }

  lemma SureYields<X(!new)>(o: Outside<X>, f: Func, op: Op, ks: seq<Rank>, vs: seq<Val>, fr: Frame<X>, trust: Trust)
    requires Operates(op) && |ks| >= Arity(op) && |vs| >= Arity(op) && RanksHold(ks, vs)
    requires Trusted(o, trust) && (Sure(op, ks, trust) || trust.Operators?)
    ensures Perform(Framed(o, f.consts), op, vs, fr).Value?
    ensures HasRank(RankOfOperator(op, ks, trust), Perform(Framed(o, f.consts), op, vs, fr).v)
    ensures Perform(Framed(o, f.consts), op, vs, fr).w.locals == fr.locals
    ensures Sure(op, ks, trust) ==> Perform(Framed(o, f.consts), op, vs, fr).w == fr
  {
    hide Ask, Bare, Decide, BinaryIn, UnaryIn, Sure1, Sure2, Rank1, Rank2, HasRank, Trusted;
    AnyRank();
    if op.Unary? {
      UnaryYields(o, op.un, ks[0], vs[0], fr, trust);
    } else if op.Binary? {
      BinaryYields(o, op.bin, ks[0], ks[1], vs[0], vs[1], fr, trust);
    } else if op.BinK? {
      BinaryYields(o, op.bin, ks[0], IsNumber, vs[0], Numeric(op.n), fr, trust);
    } else {
      BinaryYields(o, op.bin, IsNumber, ks[0], Numeric(op.n), vs[0], fr, trust);
    }
  }

  lemma AnyRank()
    ensures forall v :: HasRank(IsAny, v)
    ensures forall n :: HasRank(IsNumber, Numeric(n))
  {
  }

  lemma StaysInFrame<X(!new)>(o: Outside<X>, f: Func, args: seq<Val>, s: Facts, ip: nat, regs: seq<Val>, fr: Frame<X>)
    requires AllScalar(args) && f.Valid() && s.Sized(f) && ip < |f.code.ops| && Covers(o, args, s, regs, fr) && |regs| == f.Width()
    requires StaysSurely(f.code.ops[ip], RanksRead(f, f.code.ops[ip], s), s) && Trusted(o, s.trust)
    ensures Stays(o, f, ip, regs, fr)
  {
    hide Perform, Sure, Op.Reads, Denotes, Arity, Trusted;
    var op := f.code.ops[ip];
    FetchRanks(s.ranks, regs, op.Reads(f.code.lists));
    if SlotOp(op) {
      assert LocalHolds(s.localRanks[op.slot], s.declared[op.slot], fr.locals[op.slot]);
    }
    if Operates(op) {
      ArityFits(op, f.code.lists);
      SureYields(o, f, op, RanksRead(f, op, s), Fetch(regs, op.Reads(f.code.lists)), fr, s.trust);
    }
  }

  lemma FetchRanks(ks: seq<Rank>, vs: seq<Val>, from: seq<Reg>)
    requires RanksHold(ks, vs) && forall i :: 0 <= i < |from| ==> from[i] < |vs|
    ensures RanksHold(Fetch(ks, from), Fetch(vs, from))
  {
    hide HasRank;
  }

  // ----- Ranks are kept -----

  /** What an op leaves behind, against what is kept book of. */
  ghost predicate Booked<X>(f: Func, op: Op, ks: seq<Rank>, s: Facts, act: Act<Val, Frame<X>>)
    requires |ks| >= Arity(op) && f.ValidOp(op)
  {
    && (act.Value? && op.HasDest() ==> HasRank(RankOfOp(f, op, ks, s), act.v))
    && (act.Value? ==> LocalsBooked(op, ks, s, act.w.locals))
    && (act.Test? ==> LocalsBooked(op, ks, s, act.w.locals))
  }

  ghost predicate LocalsBooked(op: Op, ks: seq<Rank>, s: Facts, locals: seq<Option<Val>>) {
    && |s.localRanks| == |s.declared| == |locals|
    && forall i :: 0 <= i < |locals| ==> LocalHolds(LocalRanksAfter(op, ks, s)[i], DeclaredAfter(op, s)[i], locals[i])
  }

  lemma OperatorBooked<X(!new)>(o: Outside<X>, f: Func, op: Op, ks: seq<Rank>, vs: seq<Val>, s: Facts, fr: Frame<X>)
    requires Operates(op) && |ks| >= Arity(op) && |vs| >= Arity(op) && RanksHold(ks, vs) && LocalsHold(s, fr.locals) && f.ValidOp(op)
    requires Trusted(o, s.trust) && (Sure(op, ks, s.trust) || s.trust.Operators?)
    ensures Booked(f, op, ks, s, Perform(Framed(o, f.consts), op, vs, fr))
  {
    hide Perform, Sure, RankOfOperator, HasRank, Trusted;
    SureYields(o, f, op, ks, vs, fr, s.trust);
  }

  lemma VariableBooked<X>(o: Outside<X>, f: Func, op: Op, ks: seq<Rank>, vs: seq<Val>, s: Facts, fr: Frame<X>)
    requires InFrame(op) && !op.BrVarK? && op.slot < |fr.locals| && !Reaches(op, fr) && (op.Decl? || op.SetVarS? ==> |vs| == 1)
    requires |ks| >= Arity(op) && RanksHold(ks, vs) && LocalsHold(s, fr.locals) && f.ValidOp(op)
    ensures Booked(f, op, ks, s, Perform(Framed(o, f.consts), op, vs, fr))
  {
    hide Perform, Op.HasDest;
    VariablePerforms(o, f, op, vs, fr);
    assert LocalHolds(s.localRanks[op.slot], s.declared[op.slot], fr.locals[op.slot]);
    var act := Perform(Framed(o, f.consts), op, vs, fr);
    if op.Local? || op.VarS? {
      ReadBooked(op, ks, s, fr);
    } else {
      WriteBooked(op, ks, vs, s, fr, act.w.locals);
    }
  }

  lemma ReadBooked<X>(op: Op, ks: seq<Rank>, s: Facts, fr: Frame<X>)
    requires (op.Local? || op.VarS?) && LocalsHold(s, fr.locals)
    ensures LocalsBooked(op, ks, s, fr.locals)
  {
    hide LocalHolds;
  }

  lemma WriteBooked<X>(op: Op, ks: seq<Rank>, vs: seq<Val>, s: Facts, fr: Frame<X>, locals: seq<Option<Val>>)
    requires InFrame(op) && (op.Decl? || op.SetVarS? || op.SetVarK?) && op.slot < |fr.locals| && !Reaches(op, fr)
    requires RanksHold(ks, vs) && LocalsHold(s, fr.locals) && (!op.SetVarK? ==> |vs| == 1)
    requires locals == fr.locals[op.slot := Some(if op.SetVarK? then Numeric(op.n) else vs[0])]
    ensures LocalsBooked(op, ks, s, locals)
  {
    assert LocalHolds(s.localRanks[op.slot], s.declared[op.slot], fr.locals[op.slot]);
  }

  lemma JumpBooked<X>(o: Outside<X>, f: Func, op: Op, ks: seq<Rank>, vs: seq<Val>, s: Facts, fr: Frame<X>)
    requires op.Jumps() && |ks| >= Arity(op) && |vs| >= Arity(op) && LocalsHold(s, fr.locals) && f.ValidOp(op)
    requires op.BrVarK? ==> SlotOp(op) && fr.Declared(op.slot)
    ensures Booked(f, op, ks, s, Perform(Framed(o, f.consts), op, vs, fr))
  {
    hide Perform, HasRank;
    JumpIsDecided(Framed(o, f.consts), op, vs, fr);
    DecisionsKeep(o, f, op, vs, fr);
  }

  lemma DecisionsKeep<X>(o: Outside<X>, f: Func, op: Op, vs: seq<Val>, fr: Frame<X>)
    requires op.Jumps() && |vs| >= Arity(op) && (op.BrVarK? ==> SlotOp(op) && fr.Declared(op.slot))
    ensures var act := Decide(Framed(o, f.consts), op, vs, fr); !act.Value? && (act.Test? ==> act.w.locals == fr.locals)
  {
  }

  /** The ops that set a register without an operator, or return. */
  predicate Plain(op: Op) {
    op.Num? || op.Const? || op.Move? || op.Callee? || op.This? || op.Global? || op.Ret?
  }

  lemma PlainBooked<X>(o: Outside<X>, f: Func, op: Op, ks: seq<Rank>, vs: seq<Val>, s: Facts, fr: Frame<X>)
    requires Plain(op) && !op.Ret?
    requires |ks| >= Arity(op) && RanksHold(ks, vs) && LocalsHold(s, fr.locals) && f.ValidOp(op)
    ensures Booked(f, op, ks, s, Perform(Framed(o, f.consts), op, vs, fr))
  {
    hide Decide, BinaryIn, UnaryIn;
  }

  lemma OpBooked<X(!new)>(o: Outside<X>, f: Func, firstTruthy: bool, op: Op, ip: nat, known: seq<Av>, ks: seq<Rank>, vs: seq<Val>, s: Facts, fr: Frame<X>)
    requires op.ListFits(f.code.lists) && |known| == |vs| == |op.Reads(f.code.lists)| && f.ValidOp(op) && (op.HasDest() ==> op.d < |s.regs|)
    requires |ks| >= Arity(op) && |vs| >= Arity(op) && RanksHold(ks, vs) && LocalsHold(s, fr.locals) && |s.locals| == |fr.locals|
    requires OpCase(o, f, op, firstTruthy, ip, known, s.regs, s.locals).Going?
    requires StaysSurely(op, ks, s) && Trusted(o, s.trust) && !Reaches(op, fr)
    ensures Booked(f, op, ks, s, Perform(Framed(o, f.consts), op, vs, fr))
  {
    hide Booked, Perform, Op.Reads, Op.ListFits, Arity, Sure, RanksHold, LocalsHold, Trusted, AvBinary, AvUnary, Func.ValidOp;
    if Operates(op) {
      OperatorBooked(o, f, op, ks, vs, s, fr);
    } else if op.Jumps() {
      JumpBooked(o, f, op, ks, vs, s, fr);
    } else if InFrame(op) {
      WritesOne(op, f.code.lists);
      VariableBooked(o, f, op, ks, vs, s, fr);
    } else {
      PlainBooked(o, f, op, ks, vs, s, fr);
    }
  }

  // ----- Ops that leave the rest of the world alone -----

  ghost predicate Quiet<X>(act: Act<Val, Frame<X>>, fr: Frame<X>) {
    match act
    case Value(_, w) => w.rest == fr.rest
    case Test(_, w) => w.rest == fr.rest
    case Leave(e) => e.Ends? ==> e.w.rest == fr.rest
  }

  lemma JumpQuiet<X>(o: Outside<X>, f: Func, args: seq<Val>, op: Op, firstTruthy: bool, ip: nat, known: seq<Av>, vs: seq<Val>,
                     regs: seq<Av>, locals: seq<Av>, fr: Frame<X>)
    requires AllScalar(args) && firstTruthy == Truthy(ArgAt(args, 0))
    requires op.ListFits(f.code.lists) && |known| == |op.Reads(f.code.lists)| && op.Jumps() && !op.BrVarK?
    requires CoversAll(o, args, known, vs) && f.ValidOp(op) && |vs| >= Arity(op)
    ensures OpCase(o, f, op, firstTruthy, ip, known, regs, locals).GivesUp? || Quiet(Perform(Framed(o, f.consts), op, vs, fr), fr)
  {
    hide Perform, OpCase, Decide, Denotes, Op.ListFits;
    JumpIsDecided(Framed(o, f.consts), op, vs, fr);
    JumpIsCase(o, f, op, firstTruthy, ip, known, regs, locals);
    if op.BrK? {
      RegisterTest(o, f, args, op, known, vs, fr);
    } else if !op.J? && !op.Jn? {
      TruthTest(o, f, args, op, firstTruthy, known, vs, fr);
    } else if op.J? {
      PlainTest(Framed(o, f.consts), op, vs, fr);
    }
  }

  lemma VariableQuiet<X>(o: Outside<X>, f: Func, args: seq<Val>, op: Op, firstTruthy: bool, ip: nat, known: seq<Av>, vs: seq<Val>,
                         regs: seq<Av>, locals: seq<Av>, fr: Frame<X>)
    requires AllScalar(args) && op.ListFits(f.code.lists) && |known| == |op.Reads(f.code.lists)| && InFrame(op) && (op.HasDest() ==> op.d < |regs|)
    requires CoversAll(o, args, known, vs) && CoversLocals(o, args, locals, fr.locals) && f.ValidOp(op) && |vs| >= Arity(op) && !Reaches(op, fr)
    ensures OpCase(o, f, op, firstTruthy, ip, known, regs, locals).GivesUp? || Quiet(Perform(Framed(o, f.consts), op, vs, fr), fr)
  {
    hide Perform, OpCase, Op.Reads, Op.ListFits, Arity, Denotes, CoversLocals;
    WritesOne(op, f.code.lists);
    VariableIsCase(o, f, op, firstTruthy, ip, known, regs, locals);
    LocalsLength(o, args, locals, fr.locals);
    if op.slot < |locals| {
      if op.BrVarK? {
        TestPerforms(Framed(o, f.consts), op, vs, fr);
        if NumOf(locals[op.slot]).Some? {
          VariableTest(o, f, args, op, vs, locals, fr);
        }
      } else {
        VariablePerforms(o, f, op, vs, fr);
      }
    }
  }

  lemma LocalsLength<X>(o: Outside<X>, args: seq<Val>, known: seq<Av>, locals: seq<Option<Val>>)
    requires AllScalar(args) && CoversLocals(o, args, known, locals)
    ensures |known| == |locals|
  {
  }

  lemma PlainKinds<X>(o: Outside<X>, f: Func, op: Op, firstTruthy: bool, ip: nat, known: seq<Av>, regs: seq<Av>, locals: seq<Av>)
    requires !Operates(op) && !InFrame(op) && !op.Jumps()
    requires op.ListFits(f.code.lists) && |known| == |op.Reads(f.code.lists)| && (op.HasDest() ==> op.d < |regs|) && f.ValidOp(op)
    ensures OpCase(o, f, op, firstTruthy, ip, known, regs, locals).GivesUp? || Plain(op)
  {
    hide AvBinary, AvUnary, VariableCase, JumpCase;
  }

  lemma PlainQuiet<X>(o: Outside<X>, f: Func, op: Op, vs: seq<Val>, fr: Frame<X>)
    requires Plain(op) && |vs| >= Arity(op)
    ensures Quiet(Perform(Framed(o, f.consts), op, vs, fr), fr)
  {
    hide BinaryIn, UnaryIn, ActIn, Decide;
  }

  lemma OpQuiet<X(!new)>(o: Outside<X>, f: Func, args: seq<Val>, op: Op, firstTruthy: bool, ip: nat, known: seq<Av>, ks: seq<Rank>, vs: seq<Val>,
                         regs: seq<Av>, locals: seq<Av>, fr: Frame<X>, trust: Trust)
    requires AllScalar(args) && firstTruthy == Truthy(ArgAt(args, 0)) && Trusted(o, trust)
    requires op.ListFits(f.code.lists) && |known| == |op.Reads(f.code.lists)| && (op.HasDest() ==> op.d < |regs|)
    requires CoversAll(o, args, known, vs) && CoversLocals(o, args, locals, fr.locals) && f.ValidOp(op) && |ks| == |vs| >= Arity(op)
    requires !Reaches(op, fr) && RanksHold(ks, vs) && (Operates(op) ==> Sure(op, ks, trust))
    ensures OpCase(o, f, op, firstTruthy, ip, known, regs, locals).GivesUp? || Quiet(Perform(Framed(o, f.consts), op, vs, fr), fr)
  {
    hide OpCase, Perform, CoversAll, CoversLocals, Op.Reads, Op.ListFits, Func.ValidOp, Reaches, Arity, Sure, RanksHold, RankOfOperator, Trusted;
    if Operates(op) {
      SureYields(o, f, op, ks, vs, fr, trust);
    } else if InFrame(op) {
      VariableQuiet(o, f, args, op, firstTruthy, ip, known, vs, regs, locals, fr);
    } else if op.BrVarK? {
      FarCase(o, f, op, firstTruthy, ip, known, regs, locals);
    } else if op.Jumps() {
      JumpQuiet(o, f, args, op, firstTruthy, ip, known, vs, regs, locals, fr);
    } else {
      PlainKinds(o, f, op, firstTruthy, ip, known, regs, locals);
      if Plain(op) {
        PlainQuiet(o, f, op, vs, fr);
      }
    }
  }

  lemma QuietStep<X>(o: Outside<X>, f: Func, op: Op, ip: nat, regs: seq<Val>, fr: Frame<X>, act: Act<Val, Frame<X>>)
    requires Quiet(act, fr) && (op.HasDest() ==> op.d < |regs|) && (act.Test? ==> op.Jumps())
    ensures var t := Next(Framed(o, f.consts), f.code.pcs, op, ip, regs, act);
            act.Value? || act.Test? || (act.Leave? && act.e.Ends?) ==> t.w.rest == fr.rest
  {
    hide Op.Successor;
  }

  /** Unless operators are trusted to yield only, the step leaves the rest of the world alone. */
  lemma StepQuiet<X(!new)>(o: Outside<X>, f: Func, args: seq<Val>, firstTruthy: bool, ip: nat, s: Facts, regs: seq<Val>, fr: Frame<X>)
    requires AllScalar(args) && firstTruthy == Truthy(ArgAt(args, 0)) && f.Valid() && s.Sized(f) && |regs| == f.Width()
    requires ip < |f.code.ops| && Covers(o, args, s, regs, fr) && Trusted(o, s.trust) && !s.trust.Operators?
    ensures !CheckOp(o, f, firstTruthy, ip, s).Fails? ==> Step(Framed(o, f.consts), f.code, At(ip, regs, fr)).w.rest == fr.rest
  {
    hide Trusted, OpCase, Perform, CoversAll, CoversLocals, Denotes, Op.Reads, Sure, RankOfOp, HasRank, LocalRanksAfter, DeclaredAfter, Next, Agrees;
    var op, h := f.code.ops[ip], Framed(o, f.consts);
    var ks, from := RanksRead(f, op, s), op.Reads(f.code.lists);
    if Joins(op, ip) {
      JoinSteps(o, f, ip, regs, fr);
    } else if !CheckOp(o, f, firstTruthy, ip, s).Fails? {
      StaysInFrame(o, f, args, s, ip, regs, fr);
      FetchRanks(s.ranks, regs, from);
      StepIsNext(h, f.code, ip, regs, fr);
      CoversSizes(o, args, s, regs, fr);
      FetchCovers(o, args, s.regs, regs, from);
      OpAgrees(o, f, args, op, firstTruthy, ip, Fetch(s.regs, from), Fetch(regs, from), s.regs, s.locals, fr);
      OpQuiet(o, f, args, op, firstTruthy, ip, Fetch(s.regs, from), ks, Fetch(regs, from), s.regs, s.locals, fr, s.trust);
      AgreedActs(o, args, op, ip, s.regs, NextCase(o, f, firstTruthy, ip, s.regs, s.locals), Perform(h, op, Fetch(regs, from), fr));
      QuietStep(o, f, op, ip, regs, fr, Perform(h, op, Fetch(regs, from), fr));
    }
  }

  lemma AgreedActs<X>(o: Outside<X>, args: seq<Val>, op: Op, ip: nat, regs: seq<Av>, c: Case, act: Act<Val, Frame<X>>)
    requires AllScalar(args) && (op.HasDest() ==> op.d < |regs|) && Agrees(o, args, op, ip, regs, c, act) && !c.GivesUp?
    ensures act.Value? || act.Test? || (act.Leave? && act.e.Ends?)
  {
  }

  /** One step of the asking walk and one of the run. */
  lemma StepHolds<X(!new)>(o: Outside<X>, f: Func, args: seq<Val>, firstTruthy: bool, ip: nat, s: Facts, regs: seq<Val>, fr: Frame<X>)
    requires AllScalar(args) && firstTruthy == Truthy(ArgAt(args, 0)) && f.Valid() && s.Sized(f) && |regs| == f.Width()
    requires ip < |f.code.ops| && Covers(o, args, s, regs, fr) && Trusted(o, s.trust)
    ensures var t := Step(Framed(o, f.consts), f.code, At(ip, regs, fr));
            match CheckOp(o, f, firstTruthy, ip, s)
            case Fails => true
            case Comes(a) => t.Ended? && t.how.Returned? && Denotes(o, args, a, t.how.v)
            case Onward(to, r) => t.At? && t.ip == to && |t.regs| == f.Width() && Covers(o, args, r, t.regs, t.w) && r.trust == s.trust
  {
    hide OpCase, Perform, CoversAll, CoversLocals, Denotes, Op.Reads, Sure, Trusted, RankOfOp, HasRank, LocalRanksAfter, DeclaredAfter;
    var op, h := f.code.ops[ip], Framed(o, f.consts);
    var ks := RanksRead(f, op, s);
    if Joins(op, ip) {
      JoinKeeps(o, f, firstTruthy, ip, s);
      JoinSteps(o, f, ip, regs, fr);
    } else if StaysSurely(op, ks, s) {
      StaysInFrame(o, f, args, s, ip, regs, fr);
      StepCovers(o, f, args, firstTruthy, ip, s.regs, s.locals, regs, fr);
      if NextCase(o, f, firstTruthy, ip, s.regs, s.locals).Going? {
        var from := op.Reads(f.code.lists);
        FetchRanks(s.ranks, regs, from);
        StepIsNext(h, f.code, ip, regs, fr);
        CoversSizes(o, args, s, regs, fr);
        FetchCovers(o, args, s.regs, regs, from);
        OpAgrees(o, f, args, op, firstTruthy, ip, Fetch(s.regs, from), Fetch(regs, from), s.regs, s.locals, fr);
        OpBooked(o, f, firstTruthy, op, ip, Fetch(s.regs, from), ks, Fetch(regs, from), s, fr);
        BooksClose(h, f, op, ip, ks, s, regs, Perform(h, op, Fetch(regs, from), fr));
      }
    }
  }

  ghost predicate BooksClosed<X>(f: Func, op: Op, ks: seq<Rank>, s: Facts, t: State<Val, Frame<X>>)
    requires f.ValidOp(op) && |ks| >= Arity(op) && (op.HasDest() ==> op.d < |s.ranks|)
  {
    t.At? && RanksHold(RanksAfter(f, op, ks, s), t.regs) && LocalsBooked(op, ks, s, t.w.locals)
  }

  lemma RankPut(ks: seq<Rank>, vs: seq<Val>, d: Reg, k: Rank, v: Val)
    requires RanksHold(ks, vs) && d < |vs| && HasRank(k, v)
    ensures RanksHold(ks[d := k], vs[d := v])
  {
    hide HasRank;
  }

  lemma BooksClose<X>(h: Host<Val, Frame<X>>, f: Func, op: Op, ip: nat, ks: seq<Rank>, s: Facts, regs: seq<Val>, act: Act<Val, Frame<X>>)
    requires f.ValidOp(op) && |ks| >= Arity(op) && |s.ranks| == |regs| && RanksHold(s.ranks, regs)
    requires Booked(f, op, ks, s, act)
    requires (op.HasDest() ==> op.d < |regs|) && (act.Test? ==> op.Jumps()) && !act.Leave?
    ensures (op.HasDest() ==> op.d < |s.ranks|) && BooksClosed(f, op, ks, s, Next(h, f.code.pcs, op, ip, regs, act))
  {
    hide HasRank, RankOfOp, LocalsBooked, Op.Successor, Func.ValidOp, Depart;
    if act.Value? {
      if op.HasDest() {
        RankPut(s.ranks, regs, op.d, RankOfOp(f, op, ks, s), act.v);
      }
    } else {
      TestsWriteNothing(op);
    }
  }

  lemma TestsWriteNothing(op: Op)
    requires op.Jumps()
    ensures !op.HasDest()
  {
  }

  lemma CoversSizes<X>(o: Outside<X>, args: seq<Val>, s: Facts, regs: seq<Val>, fr: Frame<X>)
    requires AllScalar(args) && Covers(o, args, s, regs, fr)
    ensures |s.regs| == |s.ranks| == |regs| && |s.locals| == |s.localRanks| == |s.declared| == |fr.locals|
  {
  }

  // ----- The walk that asks knows no more -----

  predicate Refines(a: Av, b: Av) {
    a == b || a.Unknown?
  }

  predicate RefinesAll(a: seq<Av>, b: seq<Av>) {
    |a| == |b| && forall i :: 0 <= i < |a| ==> Refines(a[i], b[i])
  }

  predicate CaseRefines(a: Case, b: Case) {
    match a
    case GivesUp => true
    case Gives(v) => b.Gives? && Refines(v, b.a)
    case Going(ip, regs, locals) => b.Going? && b.ip == ip && RefinesAll(regs, b.regs) && RefinesAll(locals, b.locals)
  }

  lemma BinaryRefines<X>(o: Outside<X>, bin: BinaryOp, a: Av, b: Av, c: Av, d: Av)
    requires Refines(a, c) && Refines(b, d)
    ensures Refines(AvBinary(o, bin, a, b), AvBinary(o, bin, c, d))
  {
  }

  lemma VariableCaseRefines(op: Op, ip: nat, known: seq<Av>, more: seq<Av>, regs: seq<Av>, moreRegs: seq<Av>,
                            locals: seq<Av>, moreLocals: seq<Av>)
    requires InFrame(op) && (op.Decl? || op.SetVarS? ==> |known| > 0) && (op.HasDest() ==> op.d < |regs|)
    requires RefinesAll(known, more) && RefinesAll(regs, moreRegs) && RefinesAll(locals, moreLocals)
    ensures CaseRefines(VariableCase(op, ip, known, regs, locals), VariableCase(op, ip, more, moreRegs, moreLocals))
  {
  }

  lemma JumpCaseRefines(op: Op, firstTruthy: bool, ip: nat, known: seq<Av>, more: seq<Av>, regs: seq<Av>, moreRegs: seq<Av>,
                        locals: seq<Av>, moreLocals: seq<Av>)
    requires op.Jumps() && !op.BrVarK? && |known| >= Arity(op)
    requires RefinesAll(known, more) && RefinesAll(regs, moreRegs) && RefinesAll(locals, moreLocals)
    ensures CaseRefines(JumpCase(op, firstTruthy, ip, known, regs, locals), JumpCase(op, firstTruthy, ip, more, moreRegs, moreLocals))
  {
  }

  /** All other ops: a register gets what is known of it, the call returns, or the walk gives up. */
  lemma PutCaseRefines<X>(o: Outside<X>, f: Func, op: Op, firstTruthy: bool, ip: nat, known: seq<Av>, more: seq<Av>,
                          regs: seq<Av>, moreRegs: seq<Av>, locals: seq<Av>, moreLocals: seq<Av>)
    requires op.ListFits(f.code.lists) && f.ValidOp(op) && |known| == |op.Reads(f.code.lists)| && (op.HasDest() ==> op.d < |regs|)
    requires RefinesAll(known, more) && RefinesAll(regs, moreRegs) && RefinesAll(locals, moreLocals)
    requires !InFrame(op) && !op.Jumps()
    ensures CaseRefines(OpCase(o, f, op, firstTruthy, ip, known, regs, locals), OpCase(o, f, op, firstTruthy, ip, more, moreRegs, moreLocals))
  {
    hide AvBinary, AvUnary, VariableCase, JumpCase, Op.Successor;
    if op.Unary? {
      UnaryRefines(op.un, known[0], more[0], firstTruthy);
    } else if op.Binary? {
      BinaryRefines(o, op.bin, known[0], known[1], more[0], more[1]);
    } else if op.BinK? {
      BinaryRefines(o, op.bin, known[0], Known(Numeric(op.n)), more[0], Known(Numeric(op.n)));
    } else if op.KBin? {
      BinaryRefines(o, op.bin, Known(Numeric(op.n)), known[0], Known(Numeric(op.n)), more[0]);
    }
  }

  lemma OpCaseRefines<X>(o: Outside<X>, f: Func, op: Op, firstTruthy: bool, ip: nat, known: seq<Av>, more: seq<Av>,
                         regs: seq<Av>, moreRegs: seq<Av>, locals: seq<Av>, moreLocals: seq<Av>)
    requires op.ListFits(f.code.lists) && f.ValidOp(op) && |known| == |op.Reads(f.code.lists)| && (op.HasDest() ==> op.d < |regs|)
    requires RefinesAll(known, more) && RefinesAll(regs, moreRegs) && RefinesAll(locals, moreLocals)
    ensures CaseRefines(OpCase(o, f, op, firstTruthy, ip, known, regs, locals), OpCase(o, f, op, firstTruthy, ip, more, moreRegs, moreLocals))
  {
    hide OpCase, VariableCase, JumpCase, Op.Reads, Op.ListFits, Op.HasDest, Func.ValidOp, Arity, Refines;
    ArityFits(op, f.code.lists);
    if InFrame(op) {
      WritesOne(op, f.code.lists);
      VariableIsCase(o, f, op, firstTruthy, ip, known, regs, locals);
      VariableIsCase(o, f, op, firstTruthy, ip, more, moreRegs, moreLocals);
      VariableCaseRefines(op, ip, known, more, regs, moreRegs, locals, moreLocals);
    } else if op.BrVarK? {
      FarCase(o, f, op, firstTruthy, ip, known, regs, locals);
    } else if op.Jumps() {
      JumpIsCase(o, f, op, firstTruthy, ip, known, regs, locals);
      JumpIsCase(o, f, op, firstTruthy, ip, more, moreRegs, moreLocals);
      JumpCaseRefines(op, firstTruthy, ip, known, more, regs, moreRegs, locals, moreLocals);
    } else {
      PutCaseRefines(o, f, op, firstTruthy, ip, known, more, regs, moreRegs, locals, moreLocals);
    }
  }

  lemma UnaryRefines(un: UnaryOp, a: Av, b: Av, firstTruthy: bool)
    requires Refines(a, b)
    ensures Refines(AvUnary(un, a, firstTruthy), AvUnary(un, b, firstTruthy))
  {
  }

  lemma NextCaseRefines<X>(o: Outside<X>, f: Func, firstTruthy: bool, ip: nat, regs: seq<Av>, more: seq<Av>, locals: seq<Av>, moreLocals: seq<Av>)
    requires f.Valid() && |regs| == f.Width() && RefinesAll(regs, more) && RefinesAll(locals, moreLocals)
    ensures CaseRefines(NextCase(o, f, firstTruthy, ip, regs, locals), NextCase(o, f, firstTruthy, ip, more, moreLocals))
  {
    hide OpCase, Op.Reads, Refines, Func.ValidOp;
    if ip < |f.code.ops| {
      var op := f.code.ops[ip];
      var from := op.Reads(f.code.lists);
      FetchRefines(regs, more, from);
      OpCaseRefines(o, f, op, firstTruthy, ip, Fetch(regs, from), Fetch(more, from), regs, more, locals, moreLocals);
    }
  }

  lemma FetchRefines(a: seq<Av>, b: seq<Av>, from: seq<Reg>)
    requires RefinesAll(a, b) && forall i :: 0 <= i < |from| ==> from[i] < |a|
    ensures RefinesAll(Fetch(a, from), Fetch(b, from))
  {
    hide Refines;
  }

  // ----- Runs that follow a walk -----

  /** The run goes op by op where the walk goes, and returns a value that the walk's result denotes; a quiet
      one leaves all but the frame alone. */
  ghost predicate Follows<X>(o: Outside<X>, f: Func, args: seq<Val>, firstTruthy: bool, quiet: bool, ip: nat, known: seq<Av>, locals: seq<Av>,
                             s: State<Val, Frame<X>>, n: nat)
    requires AllScalar(args) && f.Valid() && |known| == f.Width() && (s.At? ==> |s.regs| == f.Width())
    decreases n
  {
    n > 0 && s.At? && s.ip == ip &&
    var t := Step(Framed(o, f.consts), f.code, s);
    (quiet ==> t.w.rest == s.w.rest) &&
    match NextCase(o, f, firstTruthy, ip, known, locals)
    case GivesUp => false
    case Gives(a) => t.Ended? && t.how.Returned? && Denotes(o, args, a, t.how.v)
    case Going(to, known', locals') => Follows(o, f, args, firstTruthy, quiet, to, known', locals', t, n - 1)
  }

  lemma {:induction false} FollowsReturns<X>(o: Outside<X>, f: Func, args: seq<Val>, firstTruthy: bool, quiet: bool, ip: nat, known: seq<Av>, locals: seq<Av>,
                                             s: State<Val, Frame<X>>, n: nat) returns (k: nat)
    requires AllScalar(args) && f.Valid() && |known| == f.Width() && (s.At? ==> |s.regs| == f.Width())
    requires Follows(o, f, args, firstTruthy, quiet, ip, known, locals, s, n)
    ensures k <= n && Walk(o, f, firstTruthy, ip, known, locals, n).Some?
    ensures var t := Run(Framed(o, f.consts), f.code, s, k);
            t.Ended? && t.how.Returned? && Denotes(o, args, Walk(o, f, firstTruthy, ip, known, locals, n).value, t.how.v)
            && (quiet ==> t.w.rest == s.w.rest)
    decreases n
  {
    hide NextCase, Step, Denotes;
    var h := Framed(o, f.consts);
    StepWidth(o, f, s);
    var t := Step(h, f.code, s);
    match NextCase(o, f, firstTruthy, ip, known, locals)
    case Going(to, known', locals') =>
      var k' := FollowsReturns(o, f, args, firstTruthy, quiet, to, known', locals', t, n - 1);
      k := k' + 1;
    case Gives(a) =>
      k := 1;
      assert Run(h, f.code, t, 0) == t;
  }

  lemma StepWidth<X>(o: Outside<X>, f: Func, s: State<Val, Frame<X>>)
    requires f.Valid() && (s.At? ==> |s.regs| == f.Width())
    ensures var t := Step(Framed(o, f.consts), f.code, s); t.At? ==> s.At? && |t.regs| == f.Width()
  {
    hide Perform, Next;
  }

  /** Where the walk that asks comes out as the plain one, the run follows the plain one. */
  lemma {:induction false} ContainedFollows<X(!new)>(o: Outside<X>, f: Func, args: seq<Val>, firstTruthy: bool, ip: nat, s: Facts,
                                              known: seq<Av>, locals: seq<Av>, regs: seq<Val>, fr: Frame<X>, n: nat)
    requires AllScalar(args) && firstTruthy == Truthy(ArgAt(args, 0)) && f.Valid() && s.Sized(f) && |known| == |regs| == f.Width()
    requires Covers(o, args, s, regs, fr) && Trusted(o, s.trust) && RefinesAll(s.regs, known) && RefinesAll(s.locals, locals)
    requires CheckedWalk(o, f, firstTruthy, ip, s, n).Some?
    requires CheckedWalk(o, f, firstTruthy, ip, s, n) == Walk(o, f, firstTruthy, ip, known, locals, n)
    ensures Follows(o, f, args, firstTruthy, !s.trust.Operators?, ip, known, locals, At(ip, regs, fr), n)
    decreases n
  {
    hide NextCase, Step, Covers, Denotes, Trusted, RefinesAll, RanksAfter, LocalRanksAfter, DeclaredAfter, RanksRead, StaysSurely;
    StepHolds(o, f, args, firstTruthy, ip, s, regs, fr);
    if !s.trust.Operators? {
      StepQuiet(o, f, args, firstTruthy, ip, s, regs, fr);
    }
    if Joins(f.code.ops[ip], ip) {
      JoinKeeps(o, f, firstTruthy, ip, s);
      JoinCase(o, f, firstTruthy, ip, known, locals);
    } else {
      NextCaseRefines(o, f, firstTruthy, ip, s.regs, known, s.locals, locals);
    }
    match CheckOp(o, f, firstTruthy, ip, s)
    case Onward(to, r) =>
      var t := Step(Framed(o, f.consts), f.code, At(ip, regs, fr));
      var c := NextCase(o, f, firstTruthy, ip, known, locals);
      CaseWidths(o, f, firstTruthy, ip, known, locals);
      ContainedFollows(o, f, args, firstTruthy, to, r, c.regs, c.locals, t.regs, t.w, n - 1);
    case Comes(a) =>
  }

  lemma CaseWidths<X>(o: Outside<X>, f: Func, firstTruthy: bool, ip: nat, known: seq<Av>, locals: seq<Av>)
    requires f.Valid() && |known| == f.Width()
    ensures var c := NextCase(o, f, firstTruthy, ip, known, locals); c.Going? ==> |c.regs| == f.Width() && |c.locals| == |locals|
  {
  }

  // ----- Whole calls -----

  /** The registers a call may start from: the arguments in their places, arguments beyond those places
      dropped, undefined in the other program registers, and anything in the temporaries. */
  ghost predicate CallRegs(f: Func, args: seq<Val>, regs: seq<Val>) {
    |regs| == f.Width() && forall r :: 0 <= r < f.nregs ==> regs[r] == if 4 <= r then ArgAt(args, r - 4) else Undef
  }

  lemma FirstCovers<X>(o: Outside<X>, f: Func, args: seq<Val>, regs: seq<Val>, x: X, trust: Trust)
    requires AllScalar(args) && CallRegs(f, args, regs)
    ensures Covers(o, args, FirstFacts(f, trust), regs, Frame(f.init, x))
    ensures RefinesAll(FirstFacts(f, trust).regs, FirstRegs(f)) && RefinesAll(FirstFacts(f, trust).locals, FirstLocals(f))
  {
  }

  /** If a function has a summary, and its walk is contained, a call of it with scalar arguments returns
      what the summary says (zeros may differ in sign), within the steps of a walk, and changes nothing
      outside. What is trusted of the outside the walk need not ask: that operators on scalars yield scalars,
      or that all operators yield, which may then change what is outside. */
  lemma SummaryHolds<X(!new)>(o: Outside<X>, f: Func, args: seq<Val>, regs: seq<Val>, x: X, trust: Trust) returns (k: nat)
    requires AllScalar(args) && f.Valid() && CallRegs(f, args, regs) && Summarize(o, f).Some?
    requires Contained(o, f, Truthy(ArgAt(args, 0)), trust) && Trusted(o, trust)
    ensures k <= SUMMARY_STEPS
    ensures var t := Run(Framed(o, f.consts), f.code, At(f.entry, regs, Frame(f.init, x)), k);
            var v := Meaning(Summarize(o, f).value, ArgAt(args, 0));
            t.Ended? && t.how.Returned? && (t.how.v == v || StrictlyEqual(t.how.v, v)) && (!trust.Operators? ==> t.w.rest == x)
  {
    hide Walk, CheckedWalk, Run, Covers, Follows, Trusted, RefinesAll;
    var firstTruthy, s := Truthy(ArgAt(args, 0)), At(f.entry, regs, Frame(f.init, x));
    FirstCovers(o, f, args, regs, x, trust);
    ContainedFollows(o, f, args, firstTruthy, f.entry, FirstFacts(f, trust), FirstRegs(f), FirstLocals(f), regs, Frame(f.init, x), SUMMARY_STEPS);
    k := FollowsReturns(o, f, args, firstTruthy, !trust.Operators?, f.entry, FirstRegs(f), FirstLocals(f), s, SUMMARY_STEPS);
    EqualBackwards();
  }

  lemma EqualBackwards()
    ensures forall l, r :: StrictlyEqual(l, r) ==> StrictlyEqual(r, l)
  {
  }
}
