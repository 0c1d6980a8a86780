/** Lowering of an expression tree to ops on temporary registers. */
module Lowering {
  import opened Basics
  import opened Bytecode
  import opened Expressions

  /** A function being lowered: its program registers, the ops, register lists and constants emitted
      so far, the next free temporary, and how many registers are needed in all. */
  datatype Lw = Lw(nregs: nat, ops: seq<Op>, lists: seq<Reg>, consts: seq<nat>, next: Reg, max: nat)

  function Fresh(nregs: nat): Lw {
    Lw(nregs, [], [], [], nregs, nregs)
  }

  function Push(lw: Lw, op: Op): Lw {
    lw.(ops := lw.ops + [op])
  }

  function Konst(lw: Lw, k: nat): Lw {
    lw.(consts := lw.consts + [k])
  }

  /** A fresh temporary, as long as register numbers last. */
  function Temp(lw: Lw): Option<(Lw, Reg)> {
    if lw.next >= NOSLOT - 1 then None
    else Some((lw.(next := lw.next + 1, max := if lw.max < lw.next + 1 then lw.next + 1 else lw.max), lw.next))
  }

  function Dest(lw: Lw, dst: Option<Reg>): Option<(Lw, Reg)> {
    if dst.Some? then Some((lw, dst.value)) else Temp(lw)
  }

  /** An op that reads no register gets its destination. */
  function Placed(op: Op, d: Reg): Op {
    match op
    case Num(_, n) => Num(d, n)
    case Const(_, c) => Const(d, c)
    case Name(_, c) => Name(d, c)
    case ScopeRef(_) => ScopeRef(d)
    case This(_) => This(d)
    case Callee(_) => Callee(d)
    case ExcRec(_) => ExcRec(d)
    case Exc(_) => Exc(d)
    case Global(_) => Global(d)
    case Runtime(_, r) => Runtime(d, r)
    case VarS(_, hops, slot, key) => VarS(d, hops, slot, key)
    case VarD(_, key) => VarD(d, key)
    case Local(_, slot) => Local(d, slot)
    case LocalD(_, key) => LocalD(d, key)
    case FrameField(_, id) => FrameField(d, id)
    case ScopeField(_, id) => ScopeField(d, id)
    case _ => op
  }

  function Emit(lw: Lw, op: Op, dst: Option<Reg>): Option<(Lw, Reg)> {
    var (lw1, d) :- Dest(lw, dst);
    Some((Push(lw1, Placed(op, d)), d))
  }

  /** The parts that are lowered to registers; a number next to an operator and a text after a dot go
      into the op itself. */
  function Operands(kind: Kind, parts: seq<Expr>): (es: seq<Expr>)
    requires kind.Takes(|parts|)
    ensures |es| <= |parts|
  {
    if kind.Property? && parts[1].Text? then parts[..1]
    else if kind.Infix? && parts[1].Literal? then parts[..1]
    else if kind.Infix? && parts[0].Literal? then parts[1..]
    else parts
  }

  /** The registers of the operands that go to the list pool. */
  function Listed(kind: Kind, slots: seq<Reg>): seq<Reg>
    requires |slots| > 0 || kind.ListOf? || kind.RecordOf?
  {
    if kind.Invoke? || kind.Build? then slots[1..]
    else if kind.ListOf? || kind.RecordOf? then slots
    else []
  }

  /** The op of a strict kind, with its operands in `slots`, its list at `a`, the text it names at
      `c`, and its result in `d`. */
  function OpOf(kind: Kind, parts: seq<Expr>, slots: seq<Reg>, a: nat, c: nat, d: Reg): Op
    requires kind.Takes(|parts|) && |slots| == |Operands(kind, parts)|
  {
    match kind
    case Property => if parts[1].Text? then MemberK(d, slots[0], c) else Member(d, slots[0], slots[1])
    case Invoke => Call(d, slots[0], NOSLOT, a, Low16(|slots| - 1))
    case Build => New(d, slots[0], a, Low16(|slots| - 1))
    case Spread => Apply(d, slots[0], slots[1], slots[2])
    case BuildSpread => Construct(d, slots[0], slots[1])
    case Prefix(un) => Unary(d, un, slots[0])
    case Infix(bin) =>
      if parts[1].Literal? then BinK(d, bin, slots[0], parts[1].n)
      else if parts[0].Literal? then KBin(d, bin, parts[0].n, slots[0])
      else Binary(d, bin, slots[0], slots[1])
    case ListOf => Array(d, a, Low16(|slots|))
    case RecordOf => Object(d, a, Low16(|slots|))
    case FunctionAt(entry) => Closure(d, entry, slots[0], slots[1])
    case KeysOf => Keys(d, slots[0])
  }

  /** The last op of a strict expression: the pools get what the op needs, then it is emitted. */
  function Conclude(lw: Lw, kind: Kind, parts: seq<Expr>, slots: seq<Reg>, dst: Option<Reg>): Option<(Lw, Reg)>
    requires kind.Takes(|parts|) && |slots| == |Operands(kind, parts)|
  {
    var lw1 := if kind.Property? && parts[1].Text? then Konst(lw, parts[1].k) else lw;
    var (lw2, d) :- Dest(lw1.(lists := lw.lists + Listed(kind, slots)), dst);
    Some((Push(lw2, OpOf(kind, parts, slots, |lw.lists|, |lw.consts|, d)), d))
  }

  /** The jump that skips the right side when the left side, in t, settles the matter. */
  function SkipIf(link: Connective, t: Reg, to: nat): Op {
    match link
    case And => Jf(t, to)
    case Or => Jt(t, to)
    case Coalesce => Jn(t, to)
  }

  /** Lowers e. Its value goes to `dst` if that is given, and otherwise to the register returned. */
  function Lower(lw: Lw, e: Expr, dst: Option<Reg>): (r: Option<(Lw, Reg)>)
    requires e.Fits(lw.nregs)
    ensures r.Some? ==> r.value.0.nregs == lw.nregs && |lw.ops| <= |r.value.0.ops|
    decreases e, 1
  {
    match e
    case Register(r) =>
      if dst.Some? && dst.value != r then Some((Push(lw, Move(dst.value, r)), dst.value)) else Some((lw, r))
    case Literal(n) => Emit(lw, Num(0, n), dst)
    case Constant(k) => Emit(Konst(lw, k), Const(0, |lw.consts|), dst)
    case Text(k) => Emit(Konst(lw, k), Const(0, |lw.consts|), dst)
    case NameOf(k) => Emit(Konst(lw, k), Name(0, |lw.consts|), dst)
    case Leaf(op) => Emit(lw, op, dst)
    case Strict(_, _) => if e.IsMethodCall() then LowerMethodCall(lw, e, dst) else LowerStrict(lw, e, dst)
    case Shortcut(_, _, _) => LowerShortcut(lw, e, dst)
    case Choice(_, _, _) => LowerChoice(lw, e, dst)
  }

  function LowerStrict(lw: Lw, e: Expr, dst: Option<Reg>): (r: Option<(Lw, Reg)>)
    requires e.Fits(lw.nregs) && e.Strict?
    ensures r.Some? ==> r.value.0.nregs == lw.nregs && |lw.ops| <= |r.value.0.ops|
    decreases e, 0
  {
    OperandsFit(e.kind, e.parts, lw.nregs);
    var (lw1, slots) :- LowerAll(lw, Operands(e.kind, e.parts));
    Conclude(lw1, e.kind, e.parts, slots, dst)
  }

  function LowerMethodCall(lw: Lw, e: Expr, dst: Option<Reg>): (r: Option<(Lw, Reg)>)
    requires e.Fits(lw.nregs) && e.IsMethodCall()
    ensures r.Some? ==> r.value.0.nregs == lw.nregs && |lw.ops| <= |r.value.0.ops|
    decreases e, 0
  {
    assert e.parts[0].Fits(lw.nregs);
    var (lw1, os, fs) :- LowerMethod(lw, e.parts[0]);
    var (lw2, slots) :- LowerAll(lw1, e.parts[1..]);
    LowerCall(lw2, fs, os, slots, dst)
  }

  /** The last op of a method call. */
  function LowerCall(lw: Lw, fs: Reg, os: Reg, slots: seq<Reg>, dst: Option<Reg>): Option<(Lw, Reg)> {
    var (lw1, d) :- Dest(lw.(lists := lw.lists + slots), dst);
    Some((Push(lw1, Call(d, fs, os, |lw.lists|, Low16(|slots|))), d))
  }

  function LowerShortcut(lw: Lw, e: Expr, dst: Option<Reg>): (r: Option<(Lw, Reg)>)
    requires e.Fits(lw.nregs) && e.Shortcut?
    ensures r.Some? ==> r.value.0.nregs == lw.nregs && |lw.ops| <= |r.value.0.ops|
    decreases e, 0
  {
    var (lw0, t) :- Temp(lw);
    var (lw1, _) :- Lower(lw0, e.x, Some(t));
    var (lw2, _) :- Lower(Push(lw1, SkipIf(e.link, t, 0)), e.y, Some(t));
    Some(Settle(lw2.(ops := lw2.ops[|lw1.ops| := SkipIf(e.link, t, |lw2.ops|)]), t, dst))
  }

  function LowerChoice(lw: Lw, e: Expr, dst: Option<Reg>): (r: Option<(Lw, Reg)>)
    requires e.Fits(lw.nregs) && e.Choice?
    ensures r.Some? ==> r.value.0.nregs == lw.nregs && |lw.ops| <= |r.value.0.ops|
    decreases e, 0
  {
    var (lw0, t) :- Temp(lw);
    var (lw1, cs) :- Lower(lw0, e.test, None);
    var (lw2, _) :- Lower(Push(lw1, Jf(cs, 0)), e.x, Some(t));
    var (lw3, _) :- Lower(Push(lw2, J(0)).(ops := (lw2.ops + [J(0)])[|lw1.ops| := Jf(cs, |lw2.ops| + 1)]), e.y, Some(t));
    Some(Settle(lw3.(ops := lw3.ops[|lw2.ops| := J(|lw3.ops|)]), t, dst))
  }

  /** A value that two paths leave in t goes to where it is wanted. */
  function Settle(lw: Lw, t: Reg, dst: Option<Reg>): (Lw, Reg) {
    if dst.Some? then (Push(lw, Move(dst.value, t)), dst.value) else (lw, t)
  }

  /** The object and the property of a method call: where the receiver and the function are. */
  function LowerMethod(lw: Lw, e: Expr): (r: Option<(Lw, Reg, Reg)>)
    requires e.Fits(lw.nregs) && e.Strict? && e.kind.Property?
    ensures r.Some? ==> r.value.0.nregs == lw.nregs && |lw.ops| <= |r.value.0.ops|
    decreases e, 1
  {
    var (lw1, os) :- Lower(lw, e.parts[0], None);
    var (lw2, fs) :- LowerKey(lw1, e, os);
    Some((lw2, os, fs))
  }

  function LowerKey(lw: Lw, e: Expr, os: Reg): (r: Option<(Lw, Reg)>)
    requires e.Fits(lw.nregs) && e.Strict? && e.kind.Property?
    ensures r.Some? ==> r.value.0.nregs == lw.nregs && |lw.ops| <= |r.value.0.ops|
    decreases e, 0
  {
    var key := e.parts[1];
    var (lw1, fs) :- Temp(lw);
    if key.Text? then
      Some((Push(Konst(lw1, key.k), MemberK(fs, os, |lw1.consts|)), fs))
    else
      var (lw2, ks) :- Lower(lw1, key, None);
      Some((Push(lw2, Member(fs, os, ks)), fs))
  }

  function LowerAll(lw: Lw, es: seq<Expr>): (r: Option<(Lw, seq<Reg>)>)
    requires Expr.AllFit(es, lw.nregs)
    ensures r.Some? ==> r.value.0.nregs == lw.nregs && |r.value.1| == |es| && |lw.ops| <= |r.value.0.ops|
    decreases es, 0
  {
    if es == [] then Some((lw, [])) else
    var (lw1, s) :- Lower(lw, es[0], None);
    var (lw2, slots) :- LowerAll(lw1, es[1..]);
    Some((lw2, [s] + slots))
  }

  lemma OperandsFit(kind: Kind, parts: seq<Expr>, nregs: nat)
    requires kind.Takes(|parts|) && Expr.AllFit(parts, nregs)
    ensures Expr.AllFit(Operands(kind, parts), nregs)
  {
    if |parts| == 2 {
      assert parts[..1] == [parts[0]] && parts[1..] == [parts[1]];
    }
  }
}
