/** Writing known values into a tree keeps its meaning, effects included, if what they overwrite has
    no effects. The code does not check that; where it does not hold, effects are lost. */
module Rewriting {
  import opened Numbers
  import opened Basics
  import opened Bytecode
  import opened Machine
  import opened Values
  import opened Lattice
  import opened Programs
  import opened Propagation

  /** Evaluating e yields a value and does nothing else. */
  predicate Silent<W>(h: Ops<W>, e: Expr, env: Env)
    requires e.Fits(|env|)
  {
    match e
    case Literal(_) => true
    case Slot(_) => true
    case Unary(un, x) =>
      Silent(h, x, env) && (un.LogicalNot? || un.Void? || (Known(h, x, env).Lit? && Fold1(h, un, Known(h, x, env).v).Some?))
    case Binary(bin, x, y) =>
      && Silent(h, x, env) && Silent(h, y, env) && Known(h, x, env).Lit? && Known(h, y, env).Lit?
      && Fold2(h, bin, Known(h, x, env).v, Known(h, y, env).v).Some?
    case Logical(link, x, y) =>
      Silent(h, x, env) && ((Known(h, x, env).Lit? && Settles(link, Known(h, x, env).v)) || Silent(h, y, env))
    case Cond(c, x, y) =>
      && Silent(h, c, env)
      && (match TruthOf(Known(h, c, env))
          case Some(t) => Silent(h, if t then x else y, env)
          case None => Silent(h, x, env) && Silent(h, y, env))
    case Other(_, _) => false
  }

  /** Whatever is overwritten is silent. */
  predicate KeepsEffects<W>(h: Ops<W>, e: Expr, env: Env)
    requires e.Fits(|env|)
  {
    if Known(h, e, env).Lit? then Silent(h, e, env) else
    match e
    case Literal(_) => true
    case Slot(_) => true
    case Unary(_, x) => KeepsEffects(h, x, env)
    case Binary(_, x, y) => KeepsEffects(h, x, env) && KeepsEffects(h, y, env)
    case Logical(_, x, y) => KeepsEffects(h, x, env) && KeepsEffects(h, y, env)
    case Cond(c, x, y) =>
      && KeepsEffects(h, c, env)
      && (TruthOf(Known(h, c, env)) != Some(false) ==> KeepsEffects(h, x, env))
      && (TruthOf(Known(h, c, env)) != Some(true) ==> KeepsEffects(h, y, env))
    case Other(_, kids) => forall i :: 0 <= i < |kids| ==> KeepsEffects(h, kids[i], env)
  }

  predicate AllKeep<W>(h: Ops<W>, es: seq<Expr>, env: Env)
    requires AllFit(es, |env|)
  {
    forall i :: 0 <= i < |es| ==> KeepsEffects(h, es[i], env)
  }

  predicate ListKeeps<W>(h: Ops<W>, ss: seq<Stmt>, env: Env)
    requires ListFits(ss, |env|)
    decreases ss, 0
  {
    ss == [] || (StmtKeeps(h, ss[0], env) && ListKeeps(h, ss[1..], After1(h, ss[0], env)))
  }

  predicate StmtKeeps<W>(h: Ops<W>, s: Stmt, env: Env)
    requires s.Fits(|env|)
    decreases s, 1
  {
    match s
    case Assign(_, e) => KeepsEffects(h, e, env)
    case Evaluate(e) => KeepsEffects(h, e, env)
    case Act(_, es) => AllKeep(h, es, env)
    case If(c, t, e) =>
      && KeepsEffects(h, c, env)
      && (TruthOf(Known(h, c, env)) != Some(false) ==> ListKeeps(h, t, env))
      && (TruthOf(Known(h, c, env)) != Some(true) ==> ListKeeps(h, e, env))
    case Return(e) => KeepsEffects(h, e, env)
    case Throw(e) => KeepsEffects(h, e, env)
    case Jump(e) => KeepsEffects(h, e, env)
    case Halt => true
  }

  // ----- Proofs -----

  lemma {:induction false} SilentYields<W>(h: Ops<W>, e: Expr, env: Env, vals: seq<Val>, w: W)
    requires e.Fits(|env|) && DescribesAll(env, vals) && Silent(h, e, env)
    ensures Eval(h, e, vals, w).Yields? && Eval(h, e, vals, w).w == w
  {
    match e
    case Literal(_) =>
    case Slot(_) =>
    case Unary(un, x) =>
      SilentYields(h, x, env, vals, w);
      KnownSound(h, x, env, vals, w);
    case Binary(bin, x, y) =>
      SilentYields(h, x, env, vals, w);
      KnownSound(h, x, env, vals, w);
      SilentYields(h, y, env, vals, w);
      KnownSound(h, y, env, vals, w);
    case Logical(link, x, y) =>
      SilentYields(h, x, env, vals, w);
      KnownSound(h, x, env, vals, w);
      if !Settles(link, Eval(h, x, vals, w).r) {
        SilentYields(h, y, env, vals, w);
      }
    case Cond(c, x, y) =>
      SilentYields(h, c, env, vals, w);
      KnownSound(h, c, env, vals, w);
      SilentYields(h, if Truthy(Eval(h, c, vals, w).r) then x else y, env, vals, w);
  }

  /** The rewritten tree evaluates as the tree did: the same value, world or failure. */
  lemma {:induction false} WrittenSound<W>(h: Ops<W>, e: Expr, env: Env, vals: seq<Val>, w: W)
    requires e.Fits(|env|) && DescribesAll(env, vals) && KeepsEffects(h, e, env)
    ensures Eval(h, Written(h, e, env), vals, w) == Eval(h, e, vals, w)
    decreases e, 1
  {
    if Known(h, e, env).Lit? {
      SilentYields(h, e, env, vals, w);
      KnownSound(h, e, env, vals, w);
    } else {
      hide Silent;
      match e
      case Literal(_) =>
      case Slot(_) =>
      case Unary(un, x) => WrittenSound(h, x, env, vals, w);
      case Binary(bin, x, y) =>
        WrittenSound(h, x, env, vals, w);
        var l := Eval(h, x, vals, w);
        if l.Yields? {
          WrittenSound(h, y, env, vals, l.w);
        }
      case Logical(link, x, y) =>
        WrittenSound(h, x, env, vals, w);
        var l := Eval(h, x, vals, w);
        if l.Yields? && !Settles(link, l.r) {
          WrittenSound(h, y, env, vals, l.w);
        }
      case Cond(c, x, y) =>
        WrittenSound(h, c, env, vals, w);
        var l := Eval(h, c, vals, w);
        if l.Yields? {
          KnownSound(h, c, env, vals, w);
          WrittenSound(h, if Truthy(l.r) then x else y, env, vals, l.w);
        }
      case Other(tag, kids) => WrittenAllSound(h, kids, env, vals, w);
    }
  }

  lemma {:induction false} WrittenAllSound<W>(h: Ops<W>, es: seq<Expr>, env: Env, vals: seq<Val>, w: W)
    requires AllFit(es, |env|) && DescribesAll(env, vals) && AllKeep(h, es, env)
    ensures EvalAll(h, WrittenAll(h, es, env), vals, w) == EvalAll(h, es, vals, w)
    decreases es, 0
  {
    if es != [] {
      hide Known, Written, KeepsEffects;
      WrittenSound(h, es[0], env, vals, w);
      var v := Eval(h, es[0], vals, w);
      if v.Yields? {
        WrittenAllSound(h, es[1..], env, vals, v.w);
      }
      assert ([Written(h, es[0], env)] + WrittenAll(h, es[1..], env))[1..] == WrittenAll(h, es[1..], env);
    }
  }

  lemma {:induction false} WrittenListSound<W>(h: Ops<W>, ss: seq<Stmt>, env: Env, vals: seq<Val>, w: W)
    requires ListFits(ss, |env|) && DescribesAll(env, vals) && ListKeeps(h, ss, env)
    ensures Exec(h, WrittenList(h, ss, env), vals, w) == Exec(h, ss, vals, w)
    decreases ss, 0
  {
    hide Known, Written, Written1, StmtKeeps, Exec1, After1;
    if ss != [] {
      Written1Sound(h, ss[0], env, vals, w);
      var f := Exec1(h, ss[0], vals, w);
      var after := After1(h, ss[0], env);
      if f.Goes? {
        After1Sound(h, ss[0], env, vals, w);
        WrittenListSound(h, ss[1..], after, f.vals, f.w);
      }
      assert ([Written1(h, ss[0], env)] + WrittenList(h, ss[1..], after))[1..] == WrittenList(h, ss[1..], after);
    }
  }

  lemma {:induction false} Written1Sound<W>(h: Ops<W>, s: Stmt, env: Env, vals: seq<Val>, w: W)
    requires s.Fits(|env|) && DescribesAll(env, vals) && StmtKeeps(h, s, env)
    ensures Exec1(h, Written1(h, s, env), vals, w) == Exec1(h, s, vals, w)
    decreases s, 1
  {
    hide Known, Written, KeepsEffects;
    match s
    case Assign(_, e) => WrittenSound(h, e, env, vals, w);
    case Evaluate(e) => WrittenSound(h, e, env, vals, w);
    case Act(_, es) => WrittenAllSound(h, es, env, vals, w);
    case If(c, t, e) =>
      WrittenSound(h, c, env, vals, w);
      var v := Eval(h, c, vals, w);
      if v.Yields? {
        KnownSound(h, c, env, vals, w);
        WrittenListSound(h, if Truthy(v.r) then t else e, env, vals, v.w);
      }
    case Return(e) => WrittenSound(h, e, env, vals, w);
    case Throw(e) => WrittenSound(h, e, env, vals, w);
    case Jump(e) => WrittenSound(h, e, env, vals, w);
    case Halt =>
  }

  // ----- When nothing is lost, and when something is -----

  /** No `void`, no bitwise and, no conditional: the three that can have a known value while one of
      their parts has none. */
  predicate Strict(e: Expr) {
    match e
    case Literal(_) => true
    case Slot(_) => true
    case Unary(un, x) => !un.Void? && Strict(x)
    case Binary(bin, x, y) => !bin.BitwiseAnd? && Strict(x) && Strict(y)
    case Logical(_, x, y) => Strict(x) && Strict(y)
    case Cond(_, _, _) => false
    case Other(_, kids) => forall i :: 0 <= i < |kids| ==> Strict(kids[i])
  }

  /** Such a tree never loses an effect. */
  lemma {:induction false} StrictKeeps<W>(h: Ops<W>, e: Expr, env: Env)
    requires e.Fits(|env|) && Strict(e)
    ensures KeepsEffects(h, e, env) && (Known(h, e, env).Lit? ==> Silent(h, e, env))
  {
    match e
    case Literal(_) =>
    case Slot(_) =>
    case Unary(_, x) => StrictKeeps(h, x, env);
    case Binary(_, x, y) =>
      StrictKeeps(h, x, env);
      StrictKeeps(h, y, env);
    case Logical(_, x, y) =>
      StrictKeeps(h, x, env);
      StrictKeeps(h, y, env);
    case Other(_, kids) =>
      forall i | 0 <= i < |kids| ensures KeepsEffects(h, kids[i], env) {
        StrictKeeps(h, kids[i], env);
      }
  }

  predicate StrictStmt(s: Stmt) {
    match s
    case Assign(_, e) => Strict(e)
    case Evaluate(e) => Strict(e)
    case Act(_, es) => AllStrict(es)
    case If(c, t, e) =>
      && Strict(c) && (forall k :: 0 <= k < |t| ==> StrictStmt(t[k]))
      && forall k :: 0 <= k < |e| ==> StrictStmt(e[k])
    case Return(e) => Strict(e)
    case Throw(e) => Strict(e)
    case Jump(e) => Strict(e)
    case Halt => true
  }

  predicate AllStrict(es: seq<Expr>) {
    forall i :: 0 <= i < |es| ==> Strict(es[i])
  }

  predicate StrictList(ss: seq<Stmt>) {
    forall k :: 0 <= k < |ss| ==> StrictStmt(ss[k])
  }

  lemma {:induction false} StrictListKeeps<W>(h: Ops<W>, ss: seq<Stmt>, env: Env)
    requires ListFits(ss, |env|) && StrictList(ss)
    ensures ListKeeps(h, ss, env)
    decreases ss, 0
  {
    hide StmtKeeps, After1, StrictStmt;
    if ss != [] {
      StrictStmtKeeps(h, ss[0], env);
      StrictListKeeps(h, ss[1..], After1(h, ss[0], env));
    }
  }

  lemma {:induction false} StrictStmtKeeps<W>(h: Ops<W>, s: Stmt, env: Env)
    requires s.Fits(|env|) && StrictStmt(s)
    ensures StmtKeeps(h, s, env)
    decreases s, 1
  {
    hide Strict, KeepsEffects, Silent, Known;
    match s
    case Assign(_, e) => StrictKeeps(h, e, env);
    case Evaluate(e) => StrictKeeps(h, e, env);
    case Act(_, es) =>
      forall i | 0 <= i < |es| ensures KeepsEffects(h, es[i], env) {
        StrictKeeps(h, es[i], env);
      }
    case If(c, t, e) =>
      StrictKeeps(h, c, env);
      StrictListKeeps(h, t, env);
      StrictListKeeps(h, e, env);
    case Return(e) => StrictKeeps(h, e, env);
    case Throw(e) => StrictKeeps(h, e, env);
    case Jump(e) => StrictKeeps(h, e, env);
    case Halt =>
  }

  /** A call, say: its value is not known. */
  const CALL := Expr.Other(0, [])

  /** The three trees that lose the effect of a call. */
  function Lossy(): seq<Expr> {
    [Expr.Unary(Void, CALL),
     Expr.Binary(BitwiseAnd, CALL, Literal(Numeric(ZERO))),
     Cond(CALL, Literal(Null), Literal(Null))]
  }

  /** Each of them is replaced by a constant, and the call is not made any more: if the call changes
      the world, the rewritten tree does not. */
  lemma EffectsAreLost<W>(h: Ops<W>, w: W, i: nat)
    requires i < 3 && h.other(0, [], w).Yields? && h.other(0, [], w).w != w
    requires h.foldBinary(BitwiseAnd, h.other(0, [], w).r, Numeric(ZERO)).Some?
    ensures var e := Lossy()[i];
            e.Fits(0) && Written(h, e, []).Literal?
            && Eval(h, Written(h, e, []), [], w).w == w && Eval(h, e, [], w) != Eval(h, Written(h, e, []), [], w)
  {
    var e := Lossy()[i];
    assert EvalAll(h, [], [], w) == Yields([], w);
    assert Eval(h, CALL, [], w) == h.other(0, [], w);
  }
}
