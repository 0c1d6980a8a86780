/** Which walks can be trusted. The walk that makes a summary takes temporaries to be undefined at
    first, and does not ask whether an operator throws or whether a variable is the function's own.
    This walk asks, of the function alone: it starts from unknown temporaries, and it keeps book of
    which variables are declared and which values are numbers or scalars. */
module ContainedWalks {
  import opened Basics
  import opened Bytecode
  import opened Machine
  import opened Values
  import opened AbstractValues
  import opened Summaries
  import opened SummaryRuns

  /** What is sure of a value. */
  datatype Rank = IsNumber | IsScalar | IsAny

  function RankOf(v: Val): Rank {
    if v.Numeric? then IsNumber else if v.Scalar() then IsScalar else IsAny
  }

  predicate HasRank(k: Rank, v: Val) {
    match k
    case IsNumber => v.Numeric?
    case IsScalar => v.Scalar()
    case IsAny => true
  }

  /** What is taken for granted of the outside: nothing; that scalars can be computed with; or that
      operators always yield. */
  datatype Trust = Nothing | Scalars | Operators

  predicate DefinedOnNumbers(bin: BinaryOp) {
    !bin.Exponential? && !bin.In? && !bin.Instanceof?
  }

  /** Operators that fault on no operands of these ranks, and reach nothing. */
  predicate Meek1(un: UnaryOp, k: Rank) {
    un.Void? || un.Typeof? || (!un.Delete? && !k.IsAny?)
  }

  predicate Meek2(bin: BinaryOp, j: Rank, k: Rank) {
    bin.StrictEquality? || bin.StrictInequality? || (!bin.In? && !bin.Instanceof? && !j.IsAny? && !k.IsAny?)
  }

  /** The frame decides it by itself. */
  predicate Inner1(un: UnaryOp, k: Rank) {
    un.LogicalNot? || (un.Negation? && k.IsNumber?)
  }

  predicate Inner2(bin: BinaryOp, j: Rank, k: Rank) {
    || (j.IsNumber? && k.IsNumber? && DefinedOnNumbers(bin))
    || ((bin.BitwiseOr? || bin.BitwiseXor?) && !j.IsAny? && !k.IsAny?)
  }

  predicate Sure1(un: UnaryOp, k: Rank, trust: Trust) {
    Inner1(un, k) || (trust.Scalars? && Meek1(un, k))
  }

  predicate Sure2(bin: BinaryOp, j: Rank, k: Rank, trust: Trust) {
    Inner2(bin, j, k) || (trust.Scalars? && Meek2(bin, j, k))
  }

  /** The operator yields a value and leaves the world alone, whatever is outside. */
  predicate Sure(op: Op, ks: seq<Rank>, trust: Trust)
    requires Operates(op) && |ks| >= Arity(op)
  {
    if op.Unary? then Sure1(op.un, ks[0], trust)
    else if op.Binary? then Sure2(op.bin, ks[0], ks[1], trust)
    else if op.BinK? then Sure2(op.bin, ks[0], IsNumber, trust)
    else Sure2(op.bin, IsNumber, ks[0], trust)
  }

  function Rank1(un: UnaryOp, k: Rank): Rank {
    if un.Negation? && k.IsNumber? then IsNumber else IsScalar
  }

  function Rank2(bin: BinaryOp, j: Rank, k: Rank): Rank {
    if Inner2(bin, j, k) && !Compares(bin) then IsNumber else IsScalar
  }

  function RankOfOperator(op: Op, ks: seq<Rank>, trust: Trust): Rank
    requires Operates(op) && |ks| >= Arity(op)
  {
    if !Sure(op, ks, trust) then IsAny
    else if op.Unary? then Rank1(op.un, ks[0])
    else if op.Binary? then Rank2(op.bin, ks[0], ks[1])
    else if op.BinK? then Rank2(op.bin, ks[0], IsNumber)
    else Rank2(op.bin, IsNumber, ks[0])
  }

  /** The op is about a variable of the function, if that is declared. */
  predicate SlotOp(op: Op) {
    (op.VarS? || op.SetVarS? || op.SetVarK? || op.BrVarK?) && op.hops == 0
  }

  /** What is known before an op: as in the plain walk, and the ranks, and which variables are declared; and
      what is trusted. */
  datatype Facts = Facts(regs: seq<Av>, locals: seq<Av>, ranks: seq<Rank>, localRanks: seq<Rank>, declared: seq<bool>, trust: Trust) {
    predicate Sized(f: Func) {
      |regs| == |ranks| == f.Width() && |locals| == |localRanks| == |declared|
    }
  }

  /** The op cannot leave the frame; where operators always yield, they need not be asked. */
  predicate StaysSurely(op: Op, ks: seq<Rank>, s: Facts)
    requires |ks| >= Arity(op)
  {
    && (SlotOp(op) ==> op.slot < |s.declared| && s.declared[op.slot])
    && (Operates(op) ==> s.trust.Operators? || Sure(op, ks, s.trust))
  }

  function RankOfOp(f: Func, op: Op, ks: seq<Rank>, s: Facts): Rank
    requires |ks| >= Arity(op) && f.ValidOp(op)
  {
    if op.Num? then IsNumber
    else if op.Const? then RankOf(f.consts[op.c])
    else if op.Move? then ks[0]
    else if (op.Local? || op.VarS?) && op.slot < |s.localRanks| then s.localRanks[op.slot]
    else if Operates(op) then RankOfOperator(op, ks, s.trust)
    else IsAny
  }

  function RanksAfter(f: Func, op: Op, ks: seq<Rank>, s: Facts): (r: seq<Rank>)
    requires |ks| >= Arity(op) && f.ValidOp(op) && (op.HasDest() ==> op.d < |s.ranks|)
    ensures |r| == |s.ranks|
  {
    if op.HasDest() then s.ranks[op.d := RankOfOp(f, op, ks, s)] else s.ranks
  }

  function LocalRanksAfter(op: Op, ks: seq<Rank>, s: Facts): (r: seq<Rank>)
    ensures |r| == |s.localRanks|
  {
    if (op.Decl? || (op.SetVarS? && op.hops == 0)) && op.slot < |s.localRanks| && ks != [] then s.localRanks[op.slot := ks[0]]
    else if op.SetVarK? && op.hops == 0 && op.slot < |s.localRanks| then s.localRanks[op.slot := IsNumber]
    else s.localRanks
  }

  function DeclaredAfter(op: Op, s: Facts): (r: seq<bool>)
    ensures |r| == |s.declared|
  {
    if op.Decl? && op.slot < |s.declared| then s.declared[op.slot := true] else s.declared
  }

  datatype Check = Onward(ip: nat, s: Facts) | Comes(a: Av) | Fails

  /** The operands' ranks. */
  function RanksRead(f: Func, op: Op, s: Facts): (ks: seq<Rank>)
    requires s.Sized(f) && op.WithinRegs(f.code.lists, f.Width())
    ensures |ks| == |op.Reads(f.code.lists)| >= Arity(op)
  {
    ArityFits(op, f.code.lists);
    Fetch(s.ranks, op.Reads(f.code.lists))
  }

  /** A branch on a truth value with both arms in one place: there is nothing to decide. */
  predicate Joins(op: Op, ip: nat) {
    (op.Jf? || op.Jt? || op.Br?) && op.Successor(true, ip) == op.Successor(false, ip)
  }

  function AskedCase<X>(o: Outside<X>, f: Func, firstTruthy: bool, ip: nat, s: Facts): (c: Case)
    requires f.Valid() && s.Sized(f) && ip < |f.code.ops|
    ensures c.Going? ==> |c.regs| == |s.regs| && |c.locals| == |s.locals|
  {
    var op := f.code.ops[ip];
    if Joins(op, ip) then Going(op.Successor(true, ip), s.regs, s.locals) else NextCase(o, f, firstTruthy, ip, s.regs, s.locals)
  }

  function CheckOp<X>(o: Outside<X>, f: Func, firstTruthy: bool, ip: nat, s: Facts): (c: Check)
    requires f.Valid() && s.Sized(f) && ip < |f.code.ops|
    ensures c.Onward? ==> c.s.Sized(f) && c.s.trust == s.trust
  {
    var op := f.code.ops[ip];
    var ks := RanksRead(f, op, s);
    if !StaysSurely(op, ks, s) then Fails
    else
      match AskedCase(o, f, firstTruthy, ip, s)
      case GivesUp => Fails
      case Gives(a) => Comes(a)
      case Going(to, regs, locals) =>
        Onward(to, Facts(regs, locals, RanksAfter(f, op, ks, s), LocalRanksAfter(op, ks, s), DeclaredAfter(op, s), s.trust))
  }

  function CheckedWalk<X>(o: Outside<X>, f: Func, firstTruthy: bool, ip: nat, s: Facts, n: nat): Option<Av>
    requires f.Valid() && s.Sized(f)
    decreases n
  {
    if n == 0 || ip >= |f.code.ops| then None
    else
      match CheckOp(o, f, firstTruthy, ip, s)
      case Fails => None
      case Comes(a) => Some(a)
      case Onward(to, r) => CheckedWalk(o, f, firstTruthy, to, r, n - 1)
  }

  /** Of temporaries nothing is known at first. */
  function FirstFacts(f: Func, trust: Trust): (s: Facts)
    ensures s.Sized(f) && s.trust == trust
  {
    Facts(
      seq(f.Width(), r => if 4 <= r < f.nregs then Arg(r - 4) else if r < f.nregs then Known(Undef) else Unknown),
      FirstLocals(f),
      seq(f.Width(), r => if r < f.nregs then IsScalar else IsAny),
      seq(|f.init|, i requires 0 <= i < |f.init| => if f.init[i].Some? then RankOf(f.init[i].value) else IsScalar),
      seq(|f.init|, i requires 0 <= i < |f.init| => f.init[i].Some?),
      trust)
  }

  /** The walk comes out the same when it asks. */
  predicate Contained<X>(o: Outside<X>, f: Func, firstTruthy: bool, trust: Trust)
    requires f.Valid()
  {
    && Walked(o, f, firstTruthy).Some?
    && CheckedWalk(o, f, firstTruthy, f.entry, FirstFacts(f, trust), SUMMARY_STEPS) == Walked(o, f, firstTruthy)
  }

  /** The outside's operators always yield. */
  ghost predicate Total<X(!new)>(o: Outside<X>) {
    && (forall un: UnaryOp, v: Val, x: X :: o.unary(un, v, x).Yields?)
    && (forall bin: BinaryOp, l: Val, r: Val, x: X :: o.binary(bin, l, r, x).Yields?)
  }

  /** On scalars, the outside's operators yield scalars and change nothing; only `in`, `instanceof` and `delete`
      may fail. Whether two values are strictly equal, and of which type one is, can be told of all values. */
  ghost predicate Mild<X(!new)>(o: Outside<X>) {
    && (forall un: UnaryOp, v: Val, x: X :: Meek1(un, RankOf(v)) ==> Gentle(o.unary(un, v, x), x))
    && (forall bin: BinaryOp, l: Val, r: Val, x: X :: Meek2(bin, RankOf(l), RankOf(r)) ==> Gentle(o.binary(bin, l, r, x), x))
  }

  ghost predicate Gentle<X>(e: Effect<Val, Val, X>, x: X) {
    e.Yields? && e.r.Scalar() && e.w == x
  }

  ghost predicate Trusted<X(!new)>(o: Outside<X>, trust: Trust) {
    match trust
    case Nothing => true
    case Scalars => Mild(o)
    case Operators => Total(o)
  }

  /** Nothing is written, either. */
  lemma JoinKeeps<X>(o: Outside<X>, f: Func, firstTruthy: bool, ip: nat, s: Facts)
    requires f.Valid() && s.Sized(f) && ip < |f.code.ops| && Joins(f.code.ops[ip], ip)
    ensures CheckOp(o, f, firstTruthy, ip, s) == Onward(f.code.ops[ip].Successor(true, ip), s)
  {
    hide NextCase, RankOfOp;
  }

  /** The plain walk gives up, or goes there as well. */
  lemma JoinCase<X>(o: Outside<X>, f: Func, firstTruthy: bool, ip: nat, known: seq<Av>, locals: seq<Av>)
    requires f.Valid() && |known| == f.Width() && ip < |f.code.ops| && Joins(f.code.ops[ip], ip)
    ensures var c := NextCase(o, f, firstTruthy, ip, known, locals);
            c.GivesUp? || c == Going(f.code.ops[ip].Successor(true, ip), known, locals)
  {
    hide OpCase, Op.Reads;
    var op := f.code.ops[ip];
    JumpIsCase(o, f, op, firstTruthy, ip, Fetch(known, op.Reads(f.code.lists)), known, locals);
  }

  lemma JoinSteps<X>(o: Outside<X>, f: Func, ip: nat, regs: seq<Val>, fr: Frame<X>)
    requires f.Valid() && |regs| == f.Width() && ip < |f.code.ops| && Joins(f.code.ops[ip], ip)
    ensures Step(Framed(o, f.consts), f.code, At(ip, regs, fr)) == At(f.code.ops[ip].Successor(true, ip), regs, fr)
  {
    hide Perform, Op.Reads;
    var op, h := f.code.ops[ip], Framed(o, f.consts);
    StepIsNext(h, f.code, ip, regs, fr);
    ArityFits(op, f.code.lists);
    JumpIsDecided(h, op, Fetch(regs, op.Reads(f.code.lists)), fr);
  }
}
