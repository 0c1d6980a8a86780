/** Functions as blocks of statements over expression trees, and how they run. Registers and tracked
    variables are slots. What the propagation does not look into is left to a host. */
module Programs {
  import opened Numbers
  import opened Basics
  import opened Bytecode
  import opened Machine
  import opened Values

  datatype Link = And | Or | Coalesce

  datatype Expr =
    | Literal(v: Val)
    | Slot(i: nat)
    | Unary(un: UnaryOp, x: Expr)
    | Binary(bin: BinaryOp, x: Expr, y: Expr)
    | Logical(link: Link, x: Expr, y: Expr)
    | Cond(test: Expr, x: Expr, y: Expr)
    | Other(tag: nat, kids: seq<Expr>)
  {
    predicate Fits(width: nat) {
      match this
      case Literal(_) => true
      case Slot(i) => i < width
      case Unary(_, x) => x.Fits(width)
      case Binary(_, x, y) => x.Fits(width) && y.Fits(width)
      case Logical(_, x, y) => x.Fits(width) && y.Fits(width)
      case Cond(c, x, y) => c.Fits(width) && x.Fits(width) && y.Fits(width)
      case Other(_, kids) => forall i :: 0 <= i < |kids| ==> kids[i].Fits(width)
    }
  }

  predicate AllFit(es: seq<Expr>, width: nat) {
    forall i :: 0 <= i < |es| ==> es[i].Fits(width)
  }

  datatype Stmt =
    | Assign(i: nat, e: Expr)
    | Evaluate(e: Expr)
    | Act(tag: nat, es: seq<Expr>)
    | If(cond: Expr, thenArm: seq<Stmt>, elseArm: seq<Stmt>)
    | Return(e: Expr)
    | Throw(e: Expr)
    | Jump(e: Expr)
    | Halt
  {
    predicate Fits(width: nat) {
      match this
      case Assign(i, e) => i < width && e.Fits(width)
      case Evaluate(e) => e.Fits(width)
      case Act(_, es) => AllFit(es, width)
      case If(c, t, e) =>
        && c.Fits(width) && (forall k :: 0 <= k < |t| ==> t[k].Fits(width))
        && (forall k :: 0 <= k < |e| ==> e[k].Fits(width))
      case Return(e) => e.Fits(width)
      case Throw(e) => e.Fits(width)
      case Jump(e) => e.Fits(width)
      case Halt => true
    }
  }

  predicate ListFits(ss: seq<Stmt>, width: nat) {
    forall k :: 0 <= k < |ss| ==> ss[k].Fits(width)
  }

  datatype Term = Goto(t: nat) | Branch(cond: Expr, when: bool, thenArm: nat, elseArm: nat) | Dynamic(fall: Option<nat>) | Final {
    predicate Fits(width: nat) {
      Branch? ==> cond.Fits(width)
    }
  }

  datatype Block = Block(live: bool, body: seq<Stmt>, term: Term) {
    predicate Fits(width: nat) {
      ListFits(body, width) && term.Fits(width)
    }
  }

  // ----- Running -----

  /** Operators, as far as they can be folded, and everything else. */
  datatype Ops<!W> = Ops(
    foldUnary: (UnaryOp, Val) -> Option<Val>,
    foldBinary: (BinaryOp, Val, Val) -> Option<Val>,
    unary: (UnaryOp, Val, W) -> Effect<Val, Val, W>,
    binary: (BinaryOp, Val, Val, W) -> Effect<Val, Val, W>,
    other: (nat, seq<Val>, W) -> Effect<Val, Val, W>)

  function Fold1<W>(h: Ops<W>, un: UnaryOp, v: Val): Option<Val> {
    if un.LogicalNot? then Some(Bool(!Truthy(v)))
    else if un.Void? then Some(Undef)
    else if un.Delete? then None
    else h.foldUnary(un, v)
  }

  function Fold2<W>(h: Ops<W>, bin: BinaryOp, l: Val, r: Val): Option<Val> {
    h.foldBinary(bin, l, r)
  }

  /** A bitwise and with a zero is zero, whatever the other operand, provided it is a value at all. */
  predicate Annihilates(bin: BinaryOp, l: Val, r: Val) {
    bin.BitwiseAnd? && (IsZeroVal(l) || IsZeroVal(r))
  }

  predicate IsZeroVal(v: Val) {
    v.Numeric? && IsZero(v.n)
  }

  function Run1<W>(h: Ops<W>, un: UnaryOp, v: Val, w: W): Effect<Val, Val, W> {
    match Fold1(h, un, v)
    case Some(u) => Yields(u, w)
    case None => h.unary(un, v, w)
  }

  function Run2<W>(h: Ops<W>, bin: BinaryOp, l: Val, r: Val, w: W): Effect<Val, Val, W> {
    var e := if Fold2(h, bin, l, r).Some? then Yields(Fold2(h, bin, l, r).value, w) else h.binary(bin, l, r, w);
    if e.Yields? && Annihilates(bin, l, r) then Yields(Numeric(ZERO), e.w) else e
  }

  /** The left side settles the matter. */
  predicate Settles(link: Link, v: Val) {
    match link
    case And => !Truthy(v)
    case Or => Truthy(v)
    case Coalesce => !(v.Undef? || v.Null?)
  }

  function Retyped<Q, R, W>(e: Effect<Q, Val, W>): Effect<R, Val, W>
    requires !e.Yields?
  {
    match e
    case Raises(v, w) => Raises(v, w)
    case Aborts(c, w) => Aborts(c, w)
  }

  function Eval<W>(h: Ops<W>, e: Expr, vals: seq<Val>, w: W): Effect<Val, Val, W>
    requires e.Fits(|vals|)
    decreases e, 1
  {
    match e
    case Literal(v) => Yields(v, w)
    case Slot(i) => Yields(vals[i], w)
    case Unary(un, x) =>
      var l := Eval(h, x, vals, w);
      if l.Yields? then Run1(h, un, l.r, l.w) else l
    case Binary(bin, x, y) =>
      var l := Eval(h, x, vals, w);
      if !l.Yields? then l else
      var r := Eval(h, y, vals, l.w);
      if r.Yields? then Run2(h, bin, l.r, r.r, r.w) else r
    case Logical(link, x, y) =>
      var l := Eval(h, x, vals, w);
      if l.Yields? && !Settles(link, l.r) then Eval(h, y, vals, l.w) else l
    case Cond(c, x, y) =>
      var l := Eval(h, c, vals, w);
      if l.Yields? then Eval(h, if Truthy(l.r) then x else y, vals, l.w) else l
    case Other(tag, kids) =>
      var vs := EvalAll(h, kids, vals, w);
      if vs.Yields? then h.other(tag, vs.r, vs.w) else Retyped(vs)
  }

  function EvalAll<W>(h: Ops<W>, es: seq<Expr>, vals: seq<Val>, w: W): Effect<seq<Val>, Val, W>
    requires AllFit(es, |vals|)
    decreases es, 0
  {
    if es == [] then Yields([], w) else
    var v := Eval(h, es[0], vals, w);
    if !v.Yields? then Retyped(v) else
    var rest := EvalAll(h, es[1..], vals, v.w);
    if rest.Yields? then Yields([v.r] + rest.r, rest.w) else rest
  }

  /** How a function is left. */
  datatype Stop = Gave(v: Val) | Raised(v: Val) | Jumped(v: Val) | Faulted(code: nat) | Halted | Fell | Pruned | Abroad(t: nat)

  datatype Flow<+W> = Goes(vals: seq<Val>, w: W) | Stops(how: Stop, w: W)

  function Failing<R, W>(e: Effect<R, Val, W>): Flow<W>
    requires !e.Yields?
  {
    match e
    case Raises(v, w) => Stops(Raised(v), w)
    case Aborts(c, w) => Stops(Faulted(c), w)
  }

  function Exec<W>(h: Ops<W>, ss: seq<Stmt>, vals: seq<Val>, w: W): (f: Flow<W>)
    requires ListFits(ss, |vals|)
    ensures f.Goes? ==> |f.vals| == |vals|
    decreases ss, 0
  {
    if ss == [] then Goes(vals, w) else
    var f := Exec1(h, ss[0], vals, w);
    if f.Goes? then Exec(h, ss[1..], f.vals, f.w) else f
  }

  function Exec1<W>(h: Ops<W>, s: Stmt, vals: seq<Val>, w: W): (f: Flow<W>)
    requires s.Fits(|vals|)
    ensures f.Goes? ==> |f.vals| == |vals|
    decreases s, 1
  {
    match s
    case Assign(i, e) =>
      var v := Eval(h, e, vals, w);
      if v.Yields? then Goes(vals[i := v.r], v.w) else Failing(v)
    case Evaluate(e) =>
      var v := Eval(h, e, vals, w);
      if v.Yields? then Goes(vals, v.w) else Failing(v)
    case Act(tag, es) =>
      var vs := EvalAll(h, es, vals, w);
      if !vs.Yields? then Failing(vs) else
      var u := h.other(tag, vs.r, vs.w);
      if u.Yields? then Goes(vals, u.w) else Failing(u)
    case If(c, t, e) =>
      var v := Eval(h, c, vals, w);
      if v.Yields? then Exec(h, if Truthy(v.r) then t else e, vals, v.w) else Failing(v)
    case Return(e) =>
      var v := Eval(h, e, vals, w);
      if v.Yields? then Stops(Gave(v.r), v.w) else Failing(v)
    case Throw(e) =>
      var v := Eval(h, e, vals, w);
      if v.Yields? then Stops(Raised(v.r), v.w) else Failing(v)
    case Jump(e) =>
      var v := Eval(h, e, vals, w);
      if v.Yields? then Stops(Jumped(v.r), v.w) else Failing(v)
    case Halt => Stops(Halted, w)
  }

  datatype Where<+W> = Here(b: nat, vals: seq<Val>, w: W) | Gone(how: Stop, w: W)

  predicate ProgramFits(p: seq<Block>, width: nat) {
    forall b :: 0 <= b < |p| ==> p[b].Fits(width)
  }

  function Follow<W>(h: Ops<W>, term: Term, vals: seq<Val>, w: W): (s: Where<W>)
    requires term.Fits(|vals|)
    ensures s.Here? ==> |s.vals| == |vals|
  {
    match term
    case Goto(t) => Here(t, vals, w)
    case Branch(c, when, t, e) =>
      (match Eval(h, c, vals, w)
       case Yields(v, w') => Here(if Truthy(v) == when then t else e, vals, w')
       case Raises(v, w') => Gone(Raised(v), w')
       case Aborts(k, w') => Gone(Faulted(k), w'))
    case Dynamic(Some(t)) => Here(t, vals, w)
    case _ => Gone(Fell, w)
  }

  /** From the start of one block to the start of the next. */
  function StepBlock<W>(h: Ops<W>, p: seq<Block>, s: Where<W>): (t: Where<W>)
    requires s.Here? ==> ProgramFits(p, |s.vals|)
    ensures s.Here? && t.Here? ==> |t.vals| == |s.vals|
  {
    if s.Gone? then s
    else if s.b >= |p| then Gone(Abroad(s.b), s.w)
    else if !p[s.b].live then Gone(Pruned, s.w)
    else
      assert p[s.b].Fits(|s.vals|);
      var f := Exec(h, p[s.b].body, s.vals, s.w);
      if f.Goes? then Follow(h, p[s.b].term, f.vals, f.w) else Gone(f.how, f.w)
  }

  function RunBlocks<W>(h: Ops<W>, p: seq<Block>, s: Where<W>, n: nat): (t: Where<W>)
    requires s.Here? ==> ProgramFits(p, |s.vals|)
    ensures s.Here? && t.Here? ==> |t.vals| == |s.vals|
    ensures s.Gone? ==> t == s
    decreases n
  {
    if n == 0 then s else RunBlocks(h, p, StepBlock(h, p, s), n - 1)
  }
}
