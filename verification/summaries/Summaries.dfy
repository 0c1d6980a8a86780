/** Summaries: a function that always comes out as a constant, as its first argument, or as the
    truth of its first argument need not be run. It is walked through twice, once for a truthy and
    once for a falsy first argument. */
module Summaries {
  import opened Basics
  import opened Bytecode
  import opened Machine
  import opened Values
  import opened AbstractValues

  const SUMMARY_STEPS := 256

  /** Compiled code with its constants and the first values of its variables. Registers 4 to nregs
      hold the arguments. */
  datatype Func = Func(code: Code, consts: seq<Val>, init: seq<Option<Val>>, nregs: nat, nslots: nat, entry: nat,
                       usesArgs: bool, leaf: bool) {
    function Width(): nat {
      (if nslots < nregs then nregs else nslots) + 1
    }

    /** Ops are in their bounds, and the fused compare-and-branch ops compare. */
    ghost predicate Valid() {
      && code.Fits(Width()) && (forall i :: 0 <= i < |code.ops| ==> code.keep[i])
      && forall i :: 0 <= i < |code.ops| ==> ValidOp(code.ops[i])
    }

    predicate ValidOp(op: Op) {
      && (op.Const? ==> op.c < |consts|)
      && (op.BrK? || op.BrVarK? ==> Compares(op.bin))
    }
  }

  datatype Summary = Always(v: Val) | First | NotFirst | TruthOfFirst

  datatype Case = Going(ip: nat, regs: seq<Av>, locals: seq<Av>) | Gives(a: Av) | GivesUp

  function Put(ip: nat, regs: seq<Av>, locals: seq<Av>, d: Reg, a: Av): Case
    requires d < |regs|
  {
    Going(ip + 1, regs[d := a], locals)
  }

  function Branch(t: Option<bool>, op: Op, ip: nat, regs: seq<Av>, locals: seq<Av>): Case
    requires op.Jumps()
  {
    if t.None? then GivesUp else Going(op.Successor(t.value, ip), regs, locals)
  }

  /** The op keeps to registers and to the variables of the function. */
  predicate InFrame(op: Op) {
    || op.Local? || op.Decl?
    || ((op.VarS? || op.SetVarS? || op.SetVarK? || op.BrVarK?) && op.hops == 0)
  }

  function CompareKnown(a: Av, op: Op): Option<bool>
    requires op.BrK? || op.BrVarK?
  {
    if NumOf(a).None? then None else Some(CompareNumbers(op.bin, NumOf(a).value, op.n))
  }

  /** An op that goes by a variable of the function; `args` is what is known of its operands. */
  function VariableCase(op: Op, ip: nat, args: seq<Av>, regs: seq<Av>, locals: seq<Av>): Case
    requires InFrame(op) && (op.Decl? || op.SetVarS? ==> |args| > 0) && (op.HasDest() ==> op.d < |regs|)
  {
    if op.slot >= |locals| then GivesUp
    else if op.Local? || op.VarS? then Put(ip, regs, locals, op.d, locals[op.slot])
    else if op.Decl? || op.SetVarS? then Going(ip + 1, regs, locals[op.slot := args[0]])
    else if op.SetVarK? then Going(ip + 1, regs, locals[op.slot := Known(Numeric(op.n))])
    else Branch(CompareKnown(locals[op.slot], op), op, ip, regs, locals)
  }

  function JumpCase(op: Op, firstTruthy: bool, ip: nat, args: seq<Av>, regs: seq<Av>, locals: seq<Av>): Case
    requires op.Jumps() && !op.BrVarK? && |args| >= Arity(op)
  {
    if op.J? then Going(op.to, regs, locals)
    else if op.Jn? then GivesUp
    else if op.BrK? then Branch(CompareKnown(args[0], op), op, ip, regs, locals)
    else Branch(TruthOf(args[0], firstTruthy), op, ip, regs, locals)
  }

  /** One op, or the end of what can be said. */
  function OpCase<X>(o: Outside<X>, f: Func, op: Op, firstTruthy: bool, ip: nat, args: seq<Av>, regs: seq<Av>, locals: seq<Av>): Case
    requires op.ListFits(f.code.lists) && f.ValidOp(op) && |args| == |op.Reads(f.code.lists)| && (op.HasDest() ==> op.d < |regs|)
  {
    if op.Num? then Put(ip, regs, locals, op.d, Known(Numeric(op.n)))
    else if op.Const? then Put(ip, regs, locals, op.d, Known(f.consts[op.c]))
    else if op.Move? then Put(ip, regs, locals, op.d, args[0])
    else if InFrame(op) then VariableCase(op, ip, args, regs, locals)
    else if op.Unary? then Put(ip, regs, locals, op.d, AvUnary(op.un, args[0], firstTruthy))
    else if op.Binary? then Put(ip, regs, locals, op.d, AvBinary(o, op.bin, args[0], args[1]))
    else if op.BinK? then Put(ip, regs, locals, op.d, AvBinary(o, op.bin, args[0], Known(Numeric(op.n))))
    else if op.KBin? then Put(ip, regs, locals, op.d, AvBinary(o, op.bin, Known(Numeric(op.n)), args[0]))
    else if op.BrVarK? then GivesUp
    else if op.Jumps() then JumpCase(op, firstTruthy, ip, args, regs, locals)
    else if op.Callee? || op.This? || op.Global? then Put(ip, regs, locals, op.d, Unknown)
    else if op.Ret? then Gives(args[0])
    else GivesUp
  }

  function NextCase<X>(o: Outside<X>, f: Func, firstTruthy: bool, ip: nat, regs: seq<Av>, locals: seq<Av>): (c: Case)
    requires f.Valid() && |regs| == f.Width()
    ensures c.Going? ==> |c.regs| == |regs| && |c.locals| == |locals|
  {
    if ip >= |f.code.ops| then GivesUp
    else
      var op := f.code.ops[ip];
      OpCase(o, f, op, firstTruthy, ip, Fetch(regs, op.Reads(f.code.lists)), regs, locals)
  }

  /** At most n ops from here on. */
  function Walk<X>(o: Outside<X>, f: Func, firstTruthy: bool, ip: nat, regs: seq<Av>, locals: seq<Av>, n: nat): Option<Av>
    requires f.Valid() && |regs| == f.Width()
    decreases n
  {
    if n == 0 then None
    else
      match NextCase(o, f, firstTruthy, ip, regs, locals)
      case Going(ip', regs', locals') => Walk(o, f, firstTruthy, ip', regs', locals', n - 1)
      case Gives(a) => Some(a)
      case GivesUp => None
  }

  /** At first the argument registers hold the arguments and all others undefined. */
  function FirstRegs(f: Func): (regs: seq<Av>)
    ensures |regs| == f.Width()
  {
    seq(f.Width(), r => if 4 <= r < f.nregs then Arg(r - 4) else Known(Undef))
  }

  function FirstLocals(f: Func): (locals: seq<Av>)
    ensures |locals| == |f.init|
  {
    seq(|f.init|, i requires 0 <= i < |f.init| => if f.init[i].Some? then Known(f.init[i].value) else Unknown)
  }

  function Walked<X>(o: Outside<X>, f: Func, firstTruthy: bool): Option<Av>
    requires f.Valid()
  {
    Walk(o, f, firstTruthy, f.entry, FirstRegs(f), FirstLocals(f), SUMMARY_STEPS)
  }

  /** Both walks must come out, and come out together. */
  function Summarize<X>(o: Outside<X>, f: Func): Option<Summary>
    requires f.Valid()
  {
    if f.usesArgs || !f.leaf then None
    else
      match (Walked(o, f, true), Walked(o, f, false))
      case (Some(t), Some(e)) =>
        if t == Known(Bool(true)) && e == Known(Bool(false)) then Some(TruthOfFirst)
        else if t == Known(Bool(false)) && e == Known(Bool(true)) then Some(NotFirst)
        else if t.Known? && e.Known? && StrictlyEqual(t.v, e.v) then Some(Always(t.v))
        else if t == Arg(0) && e == Arg(0) then Some(First)
        else None
      case _ => None
  }

  /** The walk as it is carried out, with one state that every op changes. */
  method SummarizeCase<X>(o: Outside<X>, f: Func, firstTruthy: bool) returns (r: Option<Av>)
    requires f.Valid()
    ensures r == Walked(o, f, firstTruthy)
  {
    hide NextCase, Func.Valid;
    var ip: nat, regs: seq<Av>, locals: seq<Av> := f.entry, FirstRegs(f), FirstLocals(f);
    for n := 0 to SUMMARY_STEPS
      invariant |regs| == f.Width()
      invariant Walked(o, f, firstTruthy) == Walk(o, f, firstTruthy, ip, regs, locals, SUMMARY_STEPS - n)
    {
      match NextCase(o, f, firstTruthy, ip, regs, locals)
      case Going(ip', regs', locals') =>
        ip, regs, locals := ip', regs', locals';
      case Gives(a) =>
        return Some(a);
      case GivesUp =>
        return None;
    }
    return None;
  }

  /** What a call comes out as by its summary, without a run. */
  function Meaning(s: Summary, first: Val): Val {
    match s
    case Always(v) => v
    case First => first
    case NotFirst => Bool(!Truthy(first))
    case TruthOfFirst => Bool(Truthy(first))
  }
}
