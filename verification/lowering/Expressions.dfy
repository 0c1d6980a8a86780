/** Expression trees and what they evaluate to, over the same host that runs the bytecode. */
module Expressions {
  import opened Numbers
  import opened Bytecode
  import opened Machine

  datatype Connective = And | Or | Coalesce

  /** What a strict expression does once all its parts have values. */
  datatype Kind =
    | Property
    | Invoke
    | Build
    | Spread
    | BuildSpread
    | Prefix(un: UnaryOp)
    | Infix(bin: BinaryOp)
    | ListOf
    | RecordOf
    | FunctionAt(entry: nat)
    | KeysOf
  {
    /** The number of parts the kind takes. */
    predicate Takes(n: nat) {
      match this
      case Property => n == 2
      case Invoke => 1 <= n
      case Build => 1 <= n
      case Spread => n == 3
      case BuildSpread => n == 2
      case Prefix(_) => n == 1
      case Infix(_) => n == 2
      case ListOf => true
      case RecordOf => true
      case FunctionAt(_) => n == 2
      case KeysOf => n == 1
    }

    /** How many of n parts go into a register list. */
    function Listing(n: nat): nat {
      match this
      case Invoke => if n == 0 then 0 else n - 1
      case Build => if n == 0 then 0 else n - 1
      case ListOf => n
      case RecordOf => n
      case _ => 0
    }
  }

  predicate Fits16(n: nat) {
    n < 0x1_0000
  }

  /** `Leaf` stands for the operands that are one op without reading a register: the scope, `this`,
      a variable, a frame field, an operand that cannot be lowered, and so on; its op has no
      destination yet. Constants are named by what they are, not by where a constant pool keeps
      them. A text is the one constant that makes a property access a named one. */
  datatype Expr =
    | Register(r: Reg)
    | Literal(n: Number)
    | Constant(k: nat)
    | Text(k: nat)
    | NameOf(k: nat)
    | Leaf(op: Op)
    | Strict(kind: Kind, parts: seq<Expr>)
    | Shortcut(link: Connective, x: Expr, y: Expr)
    | Choice(test: Expr, x: Expr, y: Expr)
  {
    /** A call whose callee is a property: the object is the receiver. */
    predicate IsMethodCall() {
      Strict? && kind.Invoke? && 0 < |parts| && parts[0].Strict? && parts[0].kind.Property?
    }

    /** Program registers are the first `nregs`, leaves are leaf ops, and every kind has its parts. */
    ghost predicate Fits(nregs: nat) {
      match this
      case Register(r) => r < nregs
      case Leaf(op) => IsLeaf(op)
      case Strict(k, parts) => k.Takes(|parts|) && forall i :: 0 <= i < |parts| ==> parts[i].Fits(nregs)
      case Shortcut(_, x, y) => x.Fits(nregs) && y.Fits(nregs)
      case Choice(c, x, y) => c.Fits(nregs) && x.Fits(nregs) && y.Fits(nregs)
      case _ => true
    }

    /** No list is longer than the sixteen bits that an op has for the length. */
    predicate Narrow() {
      match this
      case Strict(k, parts) => Fits16(k.Listing(|parts|)) && forall i :: 0 <= i < |parts| ==> parts[i].Narrow()
      case Shortcut(_, x, y) => x.Narrow() && y.Narrow()
      case Choice(c, x, y) => c.Narrow() && x.Narrow() && y.Narrow()
      case _ => true
    }

    static predicate AllNarrow(es: seq<Expr>) {
      forall i :: 0 <= i < |es| ==> es[i].Narrow()
    }

    static ghost predicate AllFit(es: seq<Expr>, nregs: nat) {
      forall i :: 0 <= i < |es| ==> es[i].Fits(nregs)
    }
  }

  predicate IsLeaf(op: Op) {
    || op.Fail?
    || ((op.ScopeRef? || op.This? || op.Callee? || op.ExcRec? || op.Exc? || op.Global? || op.Runtime? || op.VarS?
         || op.VarD? || op.Local? || op.LocalD? || op.FrameField? || op.ScopeField?) && op.d == 0)
  }

  /** The same failure, for a result of another type. */
  function Failed<Q, R, V, W>(e: Effect<Q, V, W>): Effect<R, V, W>
    requires !e.Yields?
  {
    match e
    case Raises(v, w) => Raises(v, w)
    case Aborts(c, w) => Aborts(c, w)
  }

  /** Runs a leaf op on its own. */
  function LeafValue<V, W>(h: Host<V, W>, op: Op, w: W): Effect<V, V, W>
    requires IsLeaf(op)
  {
    if op.Fail? then Aborts(op.why, w)
    else if op.Pure() then Yields(h.load(op, w), w)
    else if op.Safe() then (var (v, w') := h.note(op, [], w); Yields(v, w'))
    else h.act(op, [], w)
  }

  /** The left side settles the matter. */
  predicate Decided<V, W>(h: Host<V, W>, link: Connective, v: V) {
    match link
    case And => !h.truthy(v)
    case Or => h.truthy(v)
    case Coalesce => !h.nullish(v)
  }

  /** How the lengths of lists are taken: as they are, or cut to sixteen bits. */
  datatype Lengths = Full | Cut

  function Low16(n: nat): nat {
    n % 0x1_0000
  }

  function CountTaken(lengths: Lengths, n: nat): (r: nat)
    ensures r <= n
  {
    if lengths.Full? then n else Low16(n)
  }

  /** Of the values of the parts, those that are taken: of a list as many as its length says. */
  function Taken<T>(lengths: Lengths, kind: Kind, vs: seq<T>): (r: seq<T>)
    requires kind.Takes(|vs|) || !(kind.Invoke? || kind.Build?)
    ensures |r| <= |vs| && (kind.Takes(|vs|) ==> kind.Takes(|r|)) && (lengths.Full? ==> r == vs)
  {
    if kind.Invoke? || kind.Build? then vs[..1 + CountTaken(lengths, |vs| - 1)]
    else if kind.ListOf? || kind.RecordOf? then vs[..CountTaken(lengths, |vs|)]
    else vs
  }

  /** What a strict kind does with the values that are taken of its parts. A property access by a text
      goes by the text, not by its value. */
  function Finish<V, W>(h: Host<V, W>, kind: Kind, parts: seq<Expr>, vs: seq<V>, w: W): Effect<V, V, W>
    requires kind.Takes(|vs|) && kind.Takes(|parts|)
  {
    match kind
    case Property => if parts[1].Text? then h.act(MemberK(0, 0, parts[1].k), vs[..1], w) else h.act(Member(0, 0, 0), vs, w)
    case Invoke => h.act(Call(0, 0, NOSLOT, 0, |vs| - 1), vs, w)
    case Build => h.act(New(0, 0, 0, |vs| - 1), vs, w)
    case Spread => h.act(Apply(0, 0, 0, 0), vs, w)
    case BuildSpread => h.act(Construct(0, 0, 0), vs, w)
    case Prefix(un) => h.unary(un, vs[0], w)
    case Infix(bin) => h.binary(bin, vs[0], vs[1], w)
    case ListOf => Yields(h.list(vs), w)
    case RecordOf => h.act(Object(0, 0, |vs|), vs, w)
    case FunctionAt(entry) => (var (v, w') := h.note(Closure(0, entry, 0, 0), vs, w); Yields(v, w'))
    case KeysOf => h.act(Keys(0, 0), vs, w)
  }

  /** The value of an expression, the world its evaluation leaves behind, or how it fails. Parts are
      evaluated from left to right; a call of a property reads the property before its arguments;
      a short circuit evaluates its right side only if its left side leaves the matter open. */
  function Eval<V, W>(h: Host<V, W>, lengths: Lengths, e: Expr, regs: seq<V>, w: W): Effect<V, V, W>
    requires e.Fits(|regs|)
    decreases e, 1
  {
    match e
    case Register(r) => Yields(regs[r], w)
    case Literal(n) => Yields(h.num(n), w)
    case Constant(k) => Yields(h.load(Const(0, k), w), w)
    case Text(k) => Yields(h.load(Const(0, k), w), w)
    case NameOf(k) => h.act(Name(0, k), [], w)
    case Leaf(op) => LeafValue(h, op, w)
    case Strict(kind, parts) =>
      if e.IsMethodCall() then
        assert parts[0].Fits(|regs|);
        var vs := EvalAll(h, lengths, parts[0].parts, regs, w);
        if !vs.Yields? then Failed(vs) else
        var f := Finish(h, Property, parts[0].parts, vs.r, vs.w);
        if !f.Yields? then f else
        var rest := EvalAll(h, lengths, parts[1..], regs, f.w);
        if !rest.Yields? then Failed(rest) else
        var n := CountTaken(lengths, |rest.r|);
        h.act(Call(0, 0, 0, 0, n), [f.r, vs.r[0]] + rest.r[..n], rest.w)
      else
        var vs := EvalAll(h, lengths, parts, regs, w);
        if vs.Yields? then Finish(h, kind, parts, Taken(lengths, kind, vs.r), vs.w) else Failed(vs)
    case Shortcut(link, x, y) =>
      var v := Eval(h, lengths, x, regs, w);
      if v.Yields? && !Decided(h, link, v.r) then Eval(h, lengths, y, regs, v.w) else v
    case Choice(c, x, y) =>
      var v := Eval(h, lengths, c, regs, w);
      if v.Yields? then Eval(h, lengths, if h.truthy(v.r) then x else y, regs, v.w) else v
  }

  function EvalAll<V, W>(h: Host<V, W>, lengths: Lengths, es: seq<Expr>, regs: seq<V>, w: W): (vs: Effect<seq<V>, V, W>)
    requires Expr.AllFit(es, |regs|)
    ensures vs.Yields? ==> |vs.r| == |es|
    decreases es, 0
  {
    if es == [] then Yields([], w) else
    var v := Eval(h, lengths, es[0], regs, w);
    if !v.Yields? then Failed(v) else
    var rest := EvalAll(h, lengths, es[1..], regs, v.w);
    if rest.Yields? then Yields([v.r] + rest.r, rest.w) else rest
  }
}
