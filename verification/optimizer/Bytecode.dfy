/** The register bytecode that functions are compiled to, and what its optimizer asks of an op:
    which register it writes, which it reads, whether it is pure, whether it may throw. */
module Bytecode {
  import opened Basics
  import opened Numbers

  type Reg = nat

  /** Stands for "no receiver" in a call. */
  const NOSLOT: Reg := 0xFFFF

  /** Liveness is kept in one machine word, so only registers below this are tracked. */
  const TRACKED: nat := 128

  datatype UnaryOp = LogicalNot | Negation | Plus | BitwiseNot | Void | Typeof | Delete

  datatype BinaryOp =
    | Addition | Subtraction | Multiplication | Division | Remainder | Exponential
    | LessThan | LessEqualThan | GreaterThan | GreaterEqualThan
    | StrictEquality | StrictInequality | Equality | Inequality
    | BitwiseAnd | BitwiseOr | BitwiseXor | ShiftLeft | ShiftRight | ShiftRightZeroFill
    | In | Instanceof

  datatype Op =
    | Num(d: Reg, n: Number)
    | Const(d: Reg, c: nat)
    | Move(d: Reg, s: Reg)
    | VarS(d: Reg, hops: nat, slot: nat, key: nat)
    | VarD(d: Reg, key: nat)
    | Local(d: Reg, slot: nat)
    | LocalD(d: Reg, key: nat)
    | This(d: Reg)
    | Callee(d: Reg)
    | ScopeRef(d: Reg)
    | ExcRec(d: Reg)
    | Exc(d: Reg)
    | Global(d: Reg)
    | Runtime(d: Reg, r: nat)
    | Name(d: Reg, c: nat)
    | FrameField(d: Reg, id: nat)
    | ScopeField(d: Reg, id: nat)
    | Member(d: Reg, o: Reg, k: Reg)
    | MemberK(d: Reg, o: Reg, c: nat)
    | Call(d: Reg, f: Reg, receiver: Reg, a: nat, count: nat)
    | New(d: Reg, f: Reg, a: nat, count: nat)
    | Apply(d: Reg, f: Reg, t: Reg, arr: Reg)
    | ApplyL(d: Reg, f: Reg, t: Reg, th: Reg, a: nat, count: nat)
    | Construct(d: Reg, f: Reg, arr: Reg)
    | Unary(d: Reg, un: UnaryOp, x: Reg)
    | Binary(d: Reg, bin: BinaryOp, x: Reg, y: Reg)
    | BinK(d: Reg, bin: BinaryOp, x: Reg, n: Number)
    | KBin(d: Reg, bin: BinaryOp, n: Number, y: Reg)
    | Array(d: Reg, a: nat, count: nat)
    | Object(d: Reg, a: nat, count: nat)
    | Closure(d: Reg, entry: nat, name: Reg, arity: Reg)
    | Keys(d: Reg, x: Reg)
    | Jf(cond: Reg, to: nat)
    | Jt(cond: Reg, to: nat)
    | Jn(cond: Reg, to: nat)
    | J(to: nat)
    | SetProp(o: Reg, k: Reg, v: Reg)
    | SetVarS(hops: nat, slot: nat, key: nat, v: Reg)
    | SetVarD(key: nat, v: Reg)
    | Decl(slot: nat, v: Reg)
    | SetFrameField(id: nat, v: Reg)
    | SetScopeField(id: nat, v: Reg)
    | SetCatch(v: Reg)
    | SetFinally(v: Reg)
    | Jump(v: Reg)
    | Ret(v: Reg)
    | Throw(v: Reg)
    | Br(cond: Reg, when: bool, thenArm: nat, elseArm: nat)
    | BrK(x: Reg, bin: BinaryOp, n: Number, when: bool, thenArm: nat, elseArm: nat)
    | BrVarK(hops: nat, slot: nat, key: nat, bin: BinaryOp, n: Number, when: bool, thenArm: nat, elseArm: nat)
    | SetVarK(hops: nat, slot: nat, key: nat, n: Number)
    | Fail(why: nat, pc: nat)
  {
    /** The op writes its field d. */
    predicate HasDest() {
      || Num? || Const? || Move? || VarS? || VarD? || Local? || LocalD? || This? || Callee? || ScopeRef?
      || ExcRec? || Exc? || Global? || Runtime? || Name? || FrameField? || ScopeField? || Member? || MemberK?
      || Call? || New? || Apply? || ApplyL? || Construct? || Unary? || Binary? || BinK? || KBin? || Array?
      || Object? || Closure? || Keys?
    }

    function Def(): Option<Reg> {
      if HasDest() then Some(d) else None
    }

    /** Nothing but the value in d depends on the op having run. */
    predicate Pure() {
      Num? || Const? || Move? || This? || Callee? || Local? || ScopeRef? || ExcRec? || FrameField? || Global? || Array?
    }

    /** The op does not throw. */
    predicate Safe() {
      || Pure() || LocalD? || ScopeField? || Closure? || J? || Jf? || Jt? || Jn? || Br? || Decl?
      || SetFrameField? || SetScopeField? || SetCatch? || SetFinally? || Fail?
    }

    /** The op can only leave for a block address known at run time, or leave for good. */
    predicate Leaves() {
      Jump? || Ret? || Throw?
    }

    /** Control can go on to the next op. */
    predicate Falls() {
      !(J? || Br? || BrK? || BrVarK? || Jump? || Ret? || Throw? || Fail?)
    }

    predicate Jumps() {
      J? || Jf? || Jt? || Jn? || Br? || BrK? || BrVarK?
    }

    /** Both arms of a branch are written into the op. */
    predicate Forks() {
      Br? || BrK? || BrVarK?
    }

    /** The targets written into the op. */
    function Targets(): set<nat> {
      if Forks() then {thenArm, elseArm}
      else if Jumps() then {to}
      else {}
    }

    function Retarget(f: nat -> nat): Op {
      match this
      case J(to) => J(f(to))
      case Jf(c, to) => Jf(c, f(to))
      case Jt(c, to) => Jt(c, f(to))
      case Jn(c, to) => Jn(c, f(to))
      case Br(c, when, t, e) => Br(c, when, f(t), f(e))
      case BrK(x, bin, n, when, t, e) => BrK(x, bin, n, when, f(t), f(e))
      case BrVarK(h, s, k, bin, n, when, t, e) => BrVarK(h, s, k, bin, n, when, f(t), f(e))
      case _ => this
    }

    /** Where a jump goes when its test comes out as b, standing at ip. */
    function Successor(b: bool, ip: nat): nat
      requires Jumps()
    {
      if Forks() then (if b == when then thenArm else elseArm)
      else if J? || b == !Jf? then to
      else ip + 1
    }

    /** The list operands lie in the list pool. */
    predicate ListFits(lists: seq<Reg>) {
      (Call? || New? || ApplyL? || Array? || Object?) ==> a + count <= |lists|
    }

    /** The registers read, in the order in which the op reads them. */
    function Reads(lists: seq<Reg>): seq<Reg>
      requires ListFits(lists)
    {
      match this
      case Move(_, s) => [s]
      case Member(_, o, k) => [o, k]
      case MemberK(_, o, _) => [o]
      case Call(_, f, t, a, n) => [f] + (if t == NOSLOT then [] else [t]) + lists[a..a + n]
      case New(_, f, a, n) => [f] + lists[a..a + n]
      case Apply(_, f, t, arr) => [f, t, arr]
      case ApplyL(_, f, t, th, a, n) => [f, t, th] + lists[a..a + n]
      case Construct(_, f, arr) => [f, arr]
      case Unary(_, _, x) => [x]
      case Binary(_, _, x, y) => [x, y]
      case BinK(_, _, x, _) => [x]
      case KBin(_, _, _, y) => [y]
      case Array(_, a, n) => lists[a..a + n]
      case Object(_, a, n) => lists[a..a + n]
      case Closure(_, _, name, arity) => [name, arity]
      case Keys(_, x) => [x]
      case Jf(c, _) => [c]
      case Jt(c, _) => [c]
      case Jn(c, _) => [c]
      case Br(c, _, _, _) => [c]
      case BrK(x, _, _, _, _, _) => [x]
      case SetProp(o, k, v) => [o, k, v]
      case SetVarS(_, _, _, v) => [v]
      case SetVarD(_, v) => [v]
      case Decl(_, v) => [v]
      case SetFrameField(_, v) => [v]
      case SetScopeField(_, v) => [v]
      case SetCatch(v) => [v]
      case SetFinally(v) => [v]
      case Jump(v) => [v]
      case Ret(v) => [v]
      case Throw(v) => [v]
      case _ => []
    }

    /** The registers read, as the bit mask holds them: those from 128 on are not tracked. */
    function Uses(lists: seq<Reg>): set<Reg>
      requires ListFits(lists)
    {
      set r | r in Reads(lists) && r < TRACKED
    }

    /** Every register the op touches is one of the first `nregs`. */
    predicate WithinRegs(lists: seq<Reg>, nregs: nat) {
      && ListFits(lists)
      && (HasDest() ==> d < nregs)
      && (forall i :: 0 <= i < |Reads(lists)| ==> Reads(lists)[i] < nregs)
    }
  }
}
