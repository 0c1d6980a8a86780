/** The values of the interpreted language, and the host that keeps a function's own variables. What
    lies outside the frame, and arithmetic, are left to the outside. */
module Values {
  import opened Numbers
  import opened Basics
  import opened Bytecode
  import opened Machine

  datatype Val = Undef | Null | Bool(b: bool) | Numeric(n: Number) | Str(s: string) | Other(id: nat) {
    predicate Scalar() {
      !Other?
    }
  }

  predicate Truthy(v: Val) {
    match v
    case Undef => false
    case Null => false
    case Bool(b) => b
    case Numeric(n) => !IsZero(n) && n != NaN
    case Str(s) => s != ""
    case Other(_) => true
  }

  predicate StrictlyEqual(l: Val, r: Val) {
    match (l, r)
    case (Numeric(x), Numeric(y)) => Equal(x, y)
    case _ => l == r
  }

  /** The outside of a frame: arithmetic, the number in a text, and all that reaches other objects. */
  datatype Outside<!X> = Outside(
    arith: (BinaryOp, Number, Number) -> Number,
    digits: string -> Number,
    list: seq<Val> -> Val,
    load: (Op, X) -> Val,
    note: (Op, seq<Val>, X) -> (Val, X),
    act: (Op, seq<Val>, X) -> Effect<Val, Val, X>,
    unary: (UnaryOp, Val, X) -> Effect<Val, Val, X>,
    binary: (BinaryOp, Val, Val, X) -> Effect<Val, Val, X>,
    leave: (Op, Val, X) -> Exit<Val, X>,
    caught: (Val, X) -> Exit<Val, X>)

  function ToNumber<X>(o: Outside<X>, v: Val): Number
    requires v.Scalar()
  {
    match v
    case Undef => NaN
    case Null => ZERO
    case Bool(b) => if b then ONE else ZERO
    case Numeric(n) => n
    case Str(s) => o.digits(s)
  }

  function WordOf<X>(o: Outside<X>, v: Val): Word
    requires v.Scalar()
  {
    ToInt32(ToNumber(o, v))
  }

  predicate Compares(op: BinaryOp) {
    || op.StrictEquality? || op.StrictInequality? || op.Equality? || op.Inequality?
    || op.LessThan? || op.LessEqualThan? || op.GreaterThan? || op.GreaterEqualThan?
  }

  /** A comparison of two numbers. */
  predicate CompareNumbers(op: BinaryOp, x: Number, y: Number) {
    match op
    case StrictEquality => Equal(x, y)
    case Equality => Equal(x, y)
    case StrictInequality => !Equal(x, y)
    case Inequality => !Equal(x, y)
    case LessThan => Less(x, y)
    case LessEqualThan => Less(x, y) || Equal(x, y)
    case GreaterThan => Less(y, x)
    case _ => Less(y, x) || Equal(y, x)
  }

  /** An operator on two numbers, as far as it is defined on numbers alone. */
  function OnNumbers<X>(o: Outside<X>, op: BinaryOp, x: Number, y: Number): Option<Val> {
    if Compares(op) then Some(Bool(CompareNumbers(op, x, y)))
    else if op.BitwiseOr? then Some(Numeric(OfInt32(OrWords(ToInt32(x), ToInt32(y)))))
    else if op.BitwiseXor? then Some(Numeric(OfInt32(XorWords(ToInt32(x), ToInt32(y)))))
    else if op.Exponential? || op.In? || op.Instanceof? then None
    else Some(Numeric(o.arith(op, x, y)))
  }

  // ----- The frame -----

  /** A function's own variables, of which those not yet declared have no value, and the rest. */
  datatype Frame<+X> = Frame(locals: seq<Option<Val>>, rest: X) {
    predicate Declared(slot: nat) {
      slot < |locals| && locals[slot].Some?
    }
  }

  function Lift<X>(e: Effect<Val, Val, X>, f: Frame<X>): Effect<Val, Val, Frame<X>> {
    match e
    case Yields(v, x) => Yields(v, f.(rest := x))
    case Raises(v, x) => Raises(v, f.(rest := x))
    case Aborts(c, x) => Aborts(c, f.(rest := x))
  }

  function LiftExit<X>(e: Exit<Val, X>, f: Frame<X>): Exit<Val, Frame<X>> {
    match e
    case Resumes(pc, x) => Resumes(pc, f.(rest := x))
    case Escapes(v, x) => Escapes(v, f.(rest := x))
    case Ends(how, x) => Ends(how, f.(rest := x))
  }

  function LoadIn<X>(o: Outside<X>, consts: seq<Val>, op: Op, f: Frame<X>): Val {
    match op
    case Const(_, c) => if c < |consts| then consts[c] else o.load(op, f.rest)
    case Local(_, slot) => if slot < |f.locals| then f.locals[slot].Or(Undef) else o.load(op, f.rest)
    case _ => o.load(op, f.rest)
  }

  function NoteIn<X>(o: Outside<X>, op: Op, vs: seq<Val>, f: Frame<X>): (Val, Frame<X>) {
    if op.Decl? && op.slot < |f.locals| && |vs| == 1 then (Undef, f.(locals := f.locals[op.slot := Some(vs[0])]))
    else var (v, x) := o.note(op, vs, f.rest); (v, f.(rest := x))
  }

  /** A variable of the function itself, if it is declared; all else is found by searching outside. */
  function ActIn<X>(o: Outside<X>, op: Op, vs: seq<Val>, f: Frame<X>): Effect<Val, Val, Frame<X>> {
    if op.VarS? && op.hops == 0 && f.Declared(op.slot) then Yields(f.locals[op.slot].value, f)
    else if op.SetVarS? && op.hops == 0 && f.Declared(op.slot) && |vs| == 1 then
      Yields(Undef, f.(locals := f.locals[op.slot := Some(vs[0])]))
    else Lift(o.act(op, vs, f.rest), f)
  }

  function UnaryIn<X>(o: Outside<X>, un: UnaryOp, v: Val, f: Frame<X>): Effect<Val, Val, Frame<X>> {
    if un.LogicalNot? then Yields(Bool(!Truthy(v)), f)
    else if un.Negation? && v.Numeric? then Yields(Numeric(Negated(v.n)), f)
    else Lift(o.unary(un, v, f.rest), f)
  }

  /** Numbers are computed with on the spot; so are the bitwise operators on scalars. */
  function BinaryIn<X>(o: Outside<X>, op: BinaryOp, l: Val, r: Val, f: Frame<X>): Effect<Val, Val, Frame<X>> {
    if l.Numeric? && r.Numeric? && OnNumbers(o, op, l.n, r.n).Some? then Yields(OnNumbers(o, op, l.n, r.n).value, f)
    else if op.BitwiseOr? && l.Scalar() && r.Scalar() then Yields(Numeric(OfInt32(OrWords(WordOf(o, l), WordOf(o, r)))), f)
    else if op.BitwiseXor? && l.Scalar() && r.Scalar() then Yields(Numeric(OfInt32(XorWords(WordOf(o, l), WordOf(o, r)))), f)
    else Lift(o.binary(op, l, r, f.rest), f)
  }

  function LeaveIn<X>(o: Outside<X>, op: Op, v: Val, f: Frame<X>): Exit<Val, Frame<X>> {
    if op.Ret? then Ends(Returned(v), f) else LiftExit(o.leave(op, v, f.rest), f)
  }

  function Framed<X>(o: Outside<X>, consts: seq<Val>): Host<Val, Frame<X>> {
    Host(
      n => Numeric(n),
      v => Truthy(v),
      (v: Val) => v.Undef? || v.Null?,
      (op, f) => LoadIn(o, consts, op, f),
      vs => o.list(vs),
      (op, vs, f) => NoteIn(o, op, vs, f),
      (op, vs, f) => ActIn(o, op, vs, f),
      (un, v, f) => UnaryIn(o, un, v, f),
      (op, l, r, f) => BinaryIn(o, op, l, r, f),
      (op, v, f) => LeaveIn(o, op, v, f),
      (v, f: Frame<X>) => LiftExit(o.caught(v, f.rest), f))
  }
}
