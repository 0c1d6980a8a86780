/** Running bytecode. Control flow and registers are modelled exactly; what a call, a property
    access or an operator computes is left to a host, which is the same before and after any
    rewriting of the code. */
module Machine {
  import opened Numbers
  import opened Basics
  import opened Bytecode

  /** The end of a run: a returned value, an exception nobody caught, a fault of the machine, or an
      instruction pointer that ran out of the code. */
  datatype End<+V> = Returned(v: V) | Uncaught(v: V) | Fault(code: nat) | Lost

  /** What an op that may fail leaves behind. */
  datatype Effect<+R, +V, +W> = Yields(r: R, w: W) | Raises(v: V, w: W) | Aborts(code: nat, w: W)

  /** Where an op that leaves the straight line goes: on at a block address, or out. */
  datatype Exit<+V, +W> = Resumes(pc: nat, w: W) | Escapes(v: V, w: W) | Ends(how: End<V>, w: W)

  /** The world an op acts on, seen through the values it is given. Ops reach the host with all
      registers and jump targets erased. */
  datatype Host<!V, !W> = Host(
    num: Number -> V,
    truthy: V -> bool,
    nullish: V -> bool,
    load: (Op, W) -> V,
    list: seq<V> -> V,
    note: (Op, seq<V>, W) -> (V, W),
    act: (Op, seq<V>, W) -> Effect<V, V, W>,
    unary: (UnaryOp, V, W) -> Effect<V, V, W>,
    binary: (BinaryOp, V, V, W) -> Effect<V, V, W>,
    leave: (Op, V, W) -> Exit<V, W>,
    caught: (V, W) -> Exit<V, W>)

  /** The op without registers and targets: all that the host gets to see. */
  function Bare(op: Op): Op {
    match op
    case Const(_, c) => Const(0, c)
    case VarS(_, h, s, k) => VarS(0, h, s, k)
    case VarD(_, k) => VarD(0, k)
    case Local(_, s) => Local(0, s)
    case LocalD(_, k) => LocalD(0, k)
    case This(_) => This(0)
    case Callee(_) => Callee(0)
    case ScopeRef(_) => ScopeRef(0)
    case ExcRec(_) => ExcRec(0)
    case Exc(_) => Exc(0)
    case Global(_) => Global(0)
    case Runtime(_, r) => Runtime(0, r)
    case Name(_, c) => Name(0, c)
    case FrameField(_, id) => FrameField(0, id)
    case ScopeField(_, id) => ScopeField(0, id)
    case Member(_, _, _) => Member(0, 0, 0)
    case MemberK(_, _, c) => MemberK(0, 0, c)
    case Call(_, _, t, _, n) => Call(0, 0, if t == NOSLOT then NOSLOT else 0, 0, n)
    case New(_, _, _, n) => New(0, 0, 0, n)
    case Apply(_, _, _, _) => Apply(0, 0, 0, 0)
    case Construct(_, _, _) => Construct(0, 0, 0)
    case Object(_, _, n) => Object(0, 0, n)
    case Closure(_, e, _, _) => Closure(0, e, 0, 0)
    case Keys(_, _) => Keys(0, 0)
    case SetProp(_, _, _) => SetProp(0, 0, 0)
    case SetVarS(h, s, k, _) => SetVarS(h, s, k, 0)
    case SetVarD(k, _) => SetVarD(k, 0)
    case Decl(s, _) => Decl(s, 0)
    case SetFrameField(id, _) => SetFrameField(id, 0)
    case SetScopeField(id, _) => SetScopeField(id, 0)
    case SetCatch(_) => SetCatch(0)
    case SetFinally(_) => SetFinally(0)
    case Jump(_) => Jump(0)
    case Ret(_) => Ret(0)
    case Throw(_) => Throw(0)
    case _ => J(0)
  }

  /** What one op does: a value (for its register, if it has one) and on, a test, or an exit. */
  datatype Act<+V, +W> = Value(v: V, w: W) | Test(b: bool, w: W) | Leave(e: Exit<V, W>)

  function FromEffect<V, W>(e: Effect<V, V, W>): Act<V, W> {
    match e
    case Yields(v, w) => Value(v, w)
    case Raises(v, w) => Leave(Escapes(v, w))
    case Aborts(c, w) => Leave(Ends(Fault(c), w))
  }

  function TestOf<V, W>(h: Host<V, W>, e: Effect<V, V, W>): Act<V, W> {
    match e
    case Yields(v, w) => Test(h.truthy(v), w)
    case Raises(v, w) => Leave(Escapes(v, w))
    case Aborts(c, w) => Leave(Ends(Fault(c), w))
  }

  /** The fused compare-and-branch on a variable is the variable access and then the comparison;
      an apply over a register list is the apply over the arrays it would have been given. */
  function Perform<V, W>(h: Host<V, W>, op: Op, args: seq<V>, w: W): Act<V, W>
    requires |args| >= Arity(op)
  {
    if op.Num? then Value(h.num(op.n), w)
    else if op.Move? then Value(args[0], w)
    else if op.Array? then Value(h.list(args), w)
    else if op.Unary? then FromEffect(h.unary(op.un, args[0], w))
    else if op.Binary? then FromEffect(h.binary(op.bin, args[0], args[1], w))
    else if op.BinK? then FromEffect(h.binary(op.bin, args[0], h.num(op.n), w))
    else if op.KBin? then FromEffect(h.binary(op.bin, h.num(op.n), args[0], w))
    else if op.ApplyL? then
      FromEffect(h.act(Apply(0, 0, 0, 0), [args[0], args[1], h.list([args[2], h.list(args[3..])])], w))
    else if op.SetVarK? then FromEffect(h.act(SetVarS(op.hops, op.slot, op.key, 0), [h.num(op.n)], w))
    else if op.Jumps() then Decide(h, op, args, w)
    else if op.Leaves() then Leave(h.leave(Bare(op), args[0], w))
    else if op.Fail? then Leave(Ends(Fault(op.why), w))
    else Ask(h, op, args, w)
  }

  /** The test of a jump. */
  function Decide<V, W>(h: Host<V, W>, op: Op, args: seq<V>, w: W): Act<V, W>
    requires op.Jumps() && |args| >= Arity(op)
  {
    if op.J? then Test(true, w)
    else if op.Jn? then Test(!h.nullish(args[0]), w)
    else if op.BrK? then TestOf(h, h.binary(op.bin, args[0], h.num(op.n), w))
    else if op.BrVarK? then
      (match h.act(VarS(0, op.hops, op.slot, op.key), [], w)
       case Yields(v, w') => TestOf(h, h.binary(op.bin, v, h.num(op.n), w'))
       case Raises(v, w') => Leave(Escapes(v, w'))
       case Aborts(c, w') => Leave(Ends(Fault(c), w')))
    else Test(h.truthy(args[0]), w)
  }

  /** All other ops are the host's: reads of the frame, writes that cannot fail, and the rest. */
  function Ask<V, W>(h: Host<V, W>, op: Op, args: seq<V>, w: W): Act<V, W> {
    if op.Pure() then Value(h.load(Bare(op), w), w)
    else if op.Safe() then (var (v, w') := h.note(Bare(op), args, w); Value(v, w'))
    else FromEffect(h.act(Bare(op), args, w))
  }

  /** How many register operands come before the list operands. */
  function Arity(op: Op): nat {
    match op
    case Move(_, _) => 1
    case Unary(_, _, _) => 1
    case Binary(_, _, _, _) => 2
    case BinK(_, _, _, _) => 1
    case KBin(_, _, _, _) => 1
    case ApplyL(_, _, _, _, _, _) => 3
    case Jf(_, _) => 1
    case Jt(_, _) => 1
    case Jn(_, _) => 1
    case Br(_, _, _, _) => 1
    case BrK(_, _, _, _, _, _) => 1
    case Jump(_) => 1
    case Ret(_) => 1
    case Throw(_) => 1
    case _ => 0
  }

  lemma TestsJump<V, W>(h: Host<V, W>, op: Op, args: seq<V>, w: W)
    requires |args| >= Arity(op)
    ensures Perform(h, op, args, w).Test? ==> op.Jumps()
  {
    hide Bare;
  }

  lemma ValuesFall<V, W>(h: Host<V, W>, op: Op, args: seq<V>, w: W)
    requires |args| >= Arity(op)
    ensures Perform(h, op, args, w).Value? ==> op.Falls() && !op.Jumps()
  {
    hide Bare;
  }

  lemma SafeOpsStay<V, W>(h: Host<V, W>, op: Op, args: seq<V>, w: W)
    requires |args| >= Arity(op) && op.Safe() && Perform(h, op, args, w).Leave?
    ensures op.Fail? && Perform(h, op, args, w) == Leave(Ends(Fault(op.why), w))
  {
    hide Ask, Decide;
    if op.Jumps() {
      SafeJumpsTest(h, op, args, w);
    } else if !op.Fail? {
      SafeAsksYield(h, op, args, w);
    }
  }

  lemma SafeJumpsTest<V, W>(h: Host<V, W>, op: Op, args: seq<V>, w: W)
    requires |args| >= Arity(op) && op.Safe() && op.Jumps()
    ensures Decide(h, op, args, w).Test?
  {
  }

  lemma SafeAsksYield<V, W>(h: Host<V, W>, op: Op, args: seq<V>, w: W)
    requires op.Safe()
    ensures Ask(h, op, args, w).Value?
  {
    hide Bare;
  }

  lemma ArityFits(op: Op, lists: seq<Reg>)
    requires op.ListFits(lists)
    ensures |op.Reads(lists)| >= Arity(op)
  {
  }

  lemma FitsList(op: Op, lists: seq<Reg>, nregs: nat)
    requires op.WithinRegs(lists, nregs)
    ensures op.ListFits(lists) && (op.HasDest() ==> op.d < nregs)
    ensures forall i :: 0 <= i < |op.Reads(lists)| ==> op.Reads(lists)[i] < nregs
  {
  }

  // ----- Whole functions -----

  /** Compiled code. `pcs` maps block addresses to the ops they start at. `keep` masks ops out: one
      that is masked does nothing and goes on. */
  datatype Code = Code(ops: seq<Op>, lists: seq<Reg>, pcs: seq<(nat, nat)>, keep: seq<bool>) {
    ghost predicate Fits(nregs: nat) {
      |keep| == |ops| && forall i :: 0 <= i < |ops| ==> ops[i].WithinRegs(lists, nregs)
    }
  }

  function AllKept(n: nat): (keep: seq<bool>)
    ensures |keep| == n && forall i :: 0 <= i < n ==> keep[i]
  {
    seq(n, _ => true)
  }

  /** Code in which no op is masked out. */
  function Whole(ops: seq<Op>, lists: seq<Reg>, pcs: seq<(nat, nat)>): (code: Code)
    ensures |code.keep| == |code.ops| == |ops| && forall i :: 0 <= i < |ops| ==> code.keep[i]
  {
    Code(ops, lists, pcs, AllKept(|ops|))
  }

  datatype State<+V, +W> = At(ip: nat, regs: seq<V>, w: W) | Ended(how: End<V>, w: W)

  function FindPc(pcs: seq<(nat, nat)>, pc: nat): Option<nat> {
    if pcs == [] then None else if pcs[0].0 == pc then Some(pcs[0].1) else FindPc(pcs[1..], pc)
  }

  /** A fault code for a jump to an address where no block starts. */
  const BAD_JUMP: nat := 100

  function Enter<V, W>(pcs: seq<(nat, nat)>, pc: nat, regs: seq<V>, w: W): State<V, W> {
    match FindPc(pcs, pc)
    case Some(ip) => At(ip, regs, w)
    case None => Ended(Fault(BAD_JUMP), w)
  }

  /** An exception goes to the handler the world names, if any. */
  function Depart<V, W>(h: Host<V, W>, pcs: seq<(nat, nat)>, e: Exit<V, W>, regs: seq<V>): State<V, W> {
    match e
    case Resumes(pc, w) => Enter(pcs, pc, regs, w)
    case Ends(how, w) => Ended(how, w)
    case Escapes(v, w) =>
      (match h.caught(v, w)
       case Resumes(pc, w') => Enter(pcs, pc, regs, w')
       case Ends(how, w') => Ended(how, w')
       case Escapes(v', w') => Ended(Uncaught(v'), w'))
  }

  function Fetch<V>(regs: seq<V>, from: seq<Reg>): (args: seq<V>)
    requires forall i :: 0 <= i < |from| ==> from[i] < |regs|
    ensures |args| == |from|
    ensures forall i :: 0 <= i < |from| ==> args[i] == regs[from[i]]
  {
    seq(|from|, i requires 0 <= i < |from| => regs[from[i]])
  }

  /** The state after the op at ip, given what it did. */
  function Next<V, W>(h: Host<V, W>, pcs: seq<(nat, nat)>, op: Op, ip: nat, regs: seq<V>, act: Act<V, W>): State<V, W>
    requires op.HasDest() ==> op.d < |regs|
    requires act.Test? ==> op.Jumps()
  {
    match act
    case Value(v, w) => At(ip + 1, if op.HasDest() then regs[op.d := v] else regs, w)
    case Test(b, w) => At(op.Successor(b, ip), regs, w)
    case Leave(e) => Depart(h, pcs, e, regs)
  }

  /** What the op does with the registers it reads. */
  function PerformOn<V, W>(h: Host<V, W>, code: Code, op: Op, regs: seq<V>, w: W): (act: Act<V, W>)
    requires op.WithinRegs(code.lists, |regs|)
    ensures act.Test? ==> op.Jumps()
  {
    ArityFits(op, code.lists);
    TestsJump(h, op, Fetch(regs, op.Reads(code.lists)), w);
    Perform(h, op, Fetch(regs, op.Reads(code.lists)), w)
  }

  function Step<V, W>(h: Host<V, W>, code: Code, s: State<V, W>): (t: State<V, W>)
    requires s.At? ==> code.Fits(|s.regs|)
    ensures s.At? && t.At? ==> |t.regs| == |s.regs|
    ensures s.Ended? ==> t == s
  {
    if s.Ended? then s
    else if s.ip >= |code.ops| then Ended(Lost, s.w)
    else if !code.keep[s.ip] then At(s.ip + 1, s.regs, s.w)
    else
      var op := code.ops[s.ip];
      Next(h, code.pcs, op, s.ip, s.regs, PerformOn(h, code, op, s.regs, s.w))
  }

  lemma StepIsNext<V, W>(h: Host<V, W>, code: Code, i: nat, regs: seq<V>, w: W)
    requires code.Fits(|regs|) && i < |code.ops| && code.keep[i]
    ensures code.ops[i].WithinRegs(code.lists, |regs|)
    ensures var op := code.ops[i];
            var args := Fetch(regs, op.Reads(code.lists));
            && |args| >= Arity(op) && (Perform(h, op, args, w).Test? ==> op.Jumps())
            && Step(h, code, At(i, regs, w)) == Next(h, code.pcs, op, i, regs, Perform(h, op, args, w))
  {
    hide Perform, Op.Reads;
    var op := code.ops[i];
    ArityFits(op, code.lists);
    TestsJump(h, op, Fetch(regs, op.Reads(code.lists)), w);
  }

  function Run<V, W>(h: Host<V, W>, code: Code, s: State<V, W>, n: nat): (t: State<V, W>)
    requires s.At? ==> code.Fits(|s.regs|)
    ensures s.At? && t.At? ==> |t.regs| == |s.regs|
    ensures s.Ended? ==> t == s
    decreases n
  {
    if n == 0 then s else Run(h, code, Step(h, code, s), n - 1)
  }

  lemma {:induction false} RunAppends<V, W>(h: Host<V, W>, code: Code, s: State<V, W>, m: nat, n: nat)
    requires s.At? ==> code.Fits(|s.regs|)
    ensures Run(h, code, s, m + n) == Run(h, code, Run(h, code, s, m), n)
    decreases m
  {
    hide Step;
    if m > 0 {
      RunAppends(h, code, Step(h, code, s), m - 1, n);
    }
  }

  /** The run from s ends, with this end and this world. */
  ghost predicate EndsWith<V, W>(h: Host<V, W>, code: Code, s: State<V, W>, how: End<V>, w: W)
    requires s.At? ==> code.Fits(|s.regs|)
  {
    exists n: nat :: Run(h, code, s, n) == Ended(how, w)
  }
}
