/** Exactly when rewriting loses effects. In a host where every effect can be seen, a tree in which all
    parts are evaluated keeps its meaning if and only if what is overwritten has no effects. */
module LostEffects {
  import opened Basics
  import opened Bytecode
  import opened Machine
  import opened Values
  import opened Lattice
  import opened Programs
  import opened Propagation
  import opened Rewriting

  // ----- Hosts in which effects can be seen -----

  /** An object, of which nothing is known. */
  const STRANGER := Val.Other(0)

  /** What is left to the host adds one to the size of the world and comes out as an object; objects do not fold. */
  ghost predicate Loud<W(!new)>(h: Ops<W>, size: W -> nat) {
    && (forall un: UnaryOp, v: Val, w: W :: h.unary(un, v, w).Yields? && h.unary(un, v, w).r == STRANGER && size(h.unary(un, v, w).w) == size(w) + 1)
    && (forall bin: BinaryOp, l: Val, r: Val, w: W ::
          h.binary(bin, l, r, w).Yields? && h.binary(bin, l, r, w).r == STRANGER && size(h.binary(bin, l, r, w).w) == size(w) + 1)
    && (forall t: nat, vs: seq<Val>, w: W :: h.other(t, vs, w).Yields? && h.other(t, vs, w).r == STRANGER && size(h.other(t, vs, w).w) == size(w) + 1)
    && (forall un: UnaryOp :: h.foldUnary(un, STRANGER).None?)
    && (forall bin: BinaryOp, v: Val :: h.foldBinary(bin, STRANGER, v).None? && h.foldBinary(bin, v, STRANGER).None?)
  }

  /** There is one for all folds that leave objects alone: it counts. */
  function Counting(foldUnary: (UnaryOp, Val) -> Option<Val>, foldBinary: (BinaryOp, Val, Val) -> Option<Val>): Ops<nat> {
    Ops(foldUnary, foldBinary,
        (un, v, w) => Yields(STRANGER, w + 1), (bin, l, r, w) => Yields(STRANGER, w + 1), (t, vs, w) => Yields(STRANGER, w + 1))
  }

  lemma CountingIsLoud(foldUnary: (UnaryOp, Val) -> Option<Val>, foldBinary: (BinaryOp, Val, Val) -> Option<Val>)
    requires forall un: UnaryOp :: foldUnary(un, STRANGER).None?
    requires forall bin: BinaryOp, v: Val :: foldBinary(bin, STRANGER, v).None? && foldBinary(bin, v, STRANGER).None?
    ensures Loud(Counting(foldUnary, foldBinary), w => w)
  {
  }

  // ----- Trees of which all parts are evaluated -----

  /** No part is skipped, and what is not known can be an object: a logical connective may skip, a negation
      is never an object, and neither is a conditional, unless both its arms are the same constant. */
  predicate Straight(e: Expr) {
    match e
    case Literal(_) => true
    case Slot(_) => true
    case Unary(un, x) => !un.LogicalNot? && Straight(x)
    case Binary(_, x, y) => Straight(x) && Straight(y)
    case Logical(_, _, _) => false
    case Cond(c, x, y) => Straight(c) && x.Literal? && x == y
    case Other(_, kids) => forall i :: 0 <= i < |kids| ==> Straight(kids[i])
  }

  predicate AllStraight(es: seq<Expr>) {
    forall i :: 0 <= i < |es| ==> Straight(es[i])
  }

  /** What is known, and objects for all that is not. */
  predicate Strange(a: AV, v: Val) {
    if a.Lit? then v == a.v else a.Bot? && v == STRANGER
  }

  predicate StrangeAll(env: Env, vals: seq<Val>) {
    |env| == |vals| && forall i :: 0 <= i < |env| ==> Strange(env[i], vals[i])
  }

  lemma StrangeDescribes(env: Env, vals: seq<Val>)
    requires StrangeAll(env, vals)
    ensures DescribesAll(env, vals)
  {
  }

  // ----- What an evaluation costs -----

  lemma Run1Costs<W(!new)>(h: Ops<W>, size: W -> nat, un: UnaryOp, a: AV, v: Val, w: W)
    requires Loud(h, size) && Strange(a, v) && !un.LogicalNot?
    ensures Run1(h, un, v, w).Yields? && Strange(Known1(h, un, a), Run1(h, un, v, w).r)
    ensures size(Run1(h, un, v, w).w) == size(w) + if un.Void? || (a.Lit? && Fold1(h, un, a.v).Some?) then 0 else 1
  {
  }

  lemma Run2Costs<W(!new)>(h: Ops<W>, size: W -> nat, bin: BinaryOp, a: AV, b: AV, l: Val, r: Val, w: W)
    requires Loud(h, size) && Strange(a, l) && Strange(b, r)
    ensures Run2(h, bin, l, r, w).Yields? && Strange(Known2(h, bin, a, b), Run2(h, bin, l, r, w).r)
    ensures size(Run2(h, bin, l, r, w).w) == size(w) + if a.Lit? && b.Lit? && Fold2(h, bin, a.v, b.v).Some? then 0 else 1
  {
    LoudBinary(h, size, bin, l, r, w);
    hide Loud;
  }

  lemma LoudBinary<W(!new)>(h: Ops<W>, size: W -> nat, bin: BinaryOp, l: Val, r: Val, w: W)
    requires Loud(h, size)
    ensures h.binary(bin, l, r, w).Yields? && h.binary(bin, l, r, w).r == STRANGER && size(h.binary(bin, l, r, w).w) == size(w) + 1
    ensures l == STRANGER || r == STRANGER ==> h.foldBinary(bin, l, r).None?
  {
  }

  /** What a straight tree costs. */
  function Cost<W>(h: Ops<W>, e: Expr, env: Env): nat
    requires e.Fits(|env|)
    decreases e, 1
  {
    match e
    case Literal(_) => 0
    case Slot(_) => 0
    case Unary(un, x) =>
      Cost(h, x, env) + (if un.Void? || (Known(h, x, env).Lit? && Fold1(h, un, Known(h, x, env).v).Some?) then 0 else 1)
    case Binary(bin, x, y) =>
      Cost(h, x, env) + Cost(h, y, env)
      + (if Known(h, x, env).Lit? && Known(h, y, env).Lit? && Fold2(h, bin, Known(h, x, env).v, Known(h, y, env).v).Some? then 0 else 1)
    case Logical(_, x, _) => Cost(h, x, env)
    case Cond(c, _, _) => Cost(h, c, env)
    case Other(_, kids) => CostAll(h, kids, env) + 1
  }

  function CostAll<W>(h: Ops<W>, es: seq<Expr>, env: Env): nat
    requires AllFit(es, |env|)
    decreases es, 0
  {
    if es == [] then 0 else Cost(h, es[0], env) + CostAll(h, es[1..], env)
  }

  lemma {:induction false} EvalCosts<W(!new)>(h: Ops<W>, size: W -> nat, e: Expr, env: Env, vals: seq<Val>, w: W)
    requires Loud(h, size) && e.Fits(|env|) && StrangeAll(env, vals) && Straight(e)
    ensures Eval(h, e, vals, w).Yields? && Strange(Known(h, e, env), Eval(h, e, vals, w).r)
    ensures size(Eval(h, e, vals, w).w) == size(w) + Cost(h, e, env)
    decreases e, 1
  {
    hide Run1, Run2, Known1, Known2;
    match e
    case Literal(_) =>
    case Slot(_) =>
    case Unary(un, x) =>
      EvalCosts(h, size, x, env, vals, w);
      var l := Eval(h, x, vals, w);
      Run1Costs(h, size, un, Known(h, x, env), l.r, l.w);
    case Binary(bin, x, y) =>
      EvalCosts(h, size, x, env, vals, w);
      var l := Eval(h, x, vals, w);
      EvalCosts(h, size, y, env, vals, l.w);
      var r := Eval(h, y, vals, l.w);
      Run2Costs(h, size, bin, Known(h, x, env), Known(h, y, env), l.r, r.r, r.w);
    case Cond(c, x, y) => EvalCosts(h, size, c, env, vals, w);
    case Other(tag, kids) => EvalAllCosts(h, size, kids, env, vals, w);
  }

  lemma {:induction false} EvalAllCosts<W(!new)>(h: Ops<W>, size: W -> nat, es: seq<Expr>, env: Env, vals: seq<Val>, w: W)
    requires Loud(h, size) && AllFit(es, |env|) && StrangeAll(env, vals) && AllStraight(es)
    ensures EvalAll(h, es, vals, w).Yields? && size(EvalAll(h, es, vals, w).w) == size(w) + CostAll(h, es, env)
    decreases es, 0
  {
    if es != [] {
      EvalCosts(h, size, es[0], env, vals, w);
      EvalAllCosts(h, size, es[1..], env, vals, Eval(h, es[0], vals, w).w);
    }
  }

  // ----- Silent is free -----

  lemma {:induction false} SilentIsFree<W>(h: Ops<W>, e: Expr, env: Env)
    requires e.Fits(|env|) && Straight(e)
    ensures Silent(h, e, env) <==> Cost(h, e, env) == 0
  {
    match e
    case Literal(_) =>
    case Slot(_) =>
    case Unary(_, x) => SilentIsFree(h, x, env);
    case Binary(_, x, y) =>
      SilentIsFree(h, x, env);
      SilentIsFree(h, y, env);
    case Cond(c, _, _) => SilentIsFree(h, c, env);
    case Other(_, _) =>
  }

  /** Written, a tree is straight still and known as before. */
  lemma {:induction false} WrittenStraight<W>(h: Ops<W>, e: Expr, env: Env)
    requires e.Fits(|env|) && Straight(e)
    ensures Straight(Written(h, e, env)) && Known(h, Written(h, e, env), env) == Known(h, e, env)
    decreases e, 1
  {
    match e
    case Literal(_) =>
    case Slot(_) =>
    case Unary(_, x) => WrittenStraight(h, x, env);
    case Binary(_, x, y) =>
      WrittenStraight(h, x, env);
      WrittenStraight(h, y, env);
    case Cond(c, _, _) =>
    case Other(_, kids) => WrittenAllStraight(h, kids, env);
  }

  lemma {:induction false} WrittenAllStraight<W>(h: Ops<W>, es: seq<Expr>, env: Env)
    requires AllFit(es, |env|) && AllStraight(es)
    ensures AllStraight(WrittenAll(h, es, env))
    decreases es, 0
  {
    if es != [] {
      WrittenStraight(h, es[0], env);
      WrittenAllStraight(h, es[1..], env);
    }
  }

  /** A conditional with the same constant in both arms has that value. */
  lemma SameArms<W>(h: Ops<W>, e: Expr, env: Env)
    requires e.Fits(|env|) && e.Cond? && Straight(e)
    ensures Known(h, e, env) == Lit(e.x.v)
  {
  }

  /** Written, a tree never costs more, and as much exactly if it keeps its effects. */
  lemma {:induction false} WrittenCosts<W>(h: Ops<W>, e: Expr, env: Env)
    requires e.Fits(|env|) && Straight(e)
    ensures Cost(h, Written(h, e, env), env) <= Cost(h, e, env)
    ensures Cost(h, Written(h, e, env), env) == Cost(h, e, env) <==> KeepsEffects(h, e, env)
    decreases e, 1
  {
    if e.Cond? {
      SameArms(h, e, env);
    }
    if Known(h, e, env).Lit? {
      SilentIsFree(h, e, env);
    } else {
      hide Silent;
      match e
      case Slot(_) =>
      case Unary(_, x) =>
        WrittenCosts(h, x, env);
        WrittenStraight(h, x, env);
      case Binary(_, x, y) =>
        WrittenCosts(h, x, env);
        WrittenStraight(h, x, env);
        WrittenCosts(h, y, env);
        WrittenStraight(h, y, env);
      case Other(_, kids) => WrittenAllCosts(h, kids, env);
      case _ =>
    }
  }

  lemma {:induction false} WrittenAllCosts<W>(h: Ops<W>, es: seq<Expr>, env: Env)
    requires AllFit(es, |env|) && AllStraight(es)
    ensures CostAll(h, WrittenAll(h, es, env), env) <= CostAll(h, es, env)
    ensures CostAll(h, WrittenAll(h, es, env), env) == CostAll(h, es, env) <==> AllKeep(h, es, env)
    decreases es, 0
  {
    if es != [] {
      hide Known, Written, KeepsEffects, Cost;
      WrittenCosts(h, es[0], env);
      WrittenAllCosts(h, es[1..], env);
      assert ([Written(h, es[0], env)] + WrittenAll(h, es[1..], env))[1..] == WrittenAll(h, es[1..], env);
      AllKeepSplits(h, es, env);
    }
  }

  lemma AllKeepSplits<W>(h: Ops<W>, es: seq<Expr>, env: Env)
    requires AllFit(es, |env|) && es != []
    ensures AllKeep(h, es, env) <==> KeepsEffects(h, es[0], env) && AllKeep(h, es[1..], env)
  {
    hide KeepsEffects;
    if KeepsEffects(h, es[0], env) && AllKeep(h, es[1..], env) {
      forall i | 0 <= i < |es| ensures KeepsEffects(h, es[i], env) {
        assert i > 0 ==> es[i] == es[1..][i - 1];
      }
    } else if AllKeep(h, es, env) {
      forall i | 0 <= i < |es| - 1 ensures KeepsEffects(h, es[1..][i], env) {
        assert es[1..][i] == es[i + 1];
      }
    }
  }

  // ----- Exactly -----

  /** A straight tree evaluates as before, in a host where effects can be seen and with objects for what is
      not known, if and only if what is overwritten has no effects. */
  lemma KeepsExactly<W(!new)>(h: Ops<W>, size: W -> nat, e: Expr, env: Env, vals: seq<Val>, w: W)
    requires Loud(h, size) && e.Fits(|env|) && StrangeAll(env, vals) && Straight(e)
    ensures Eval(h, Written(h, e, env), vals, w) == Eval(h, e, vals, w) <==> KeepsEffects(h, e, env)
  {
    hide Eval, Known, Written, KeepsEffects, Cost, Straight, Loud;
    StrangeDescribes(env, vals);
    if KeepsEffects(h, e, env) {
      WrittenSound(h, e, env, vals, w);
    } else {
      WrittenCosts(h, e, env);
      WrittenStraight(h, e, env);
      EvalCosts(h, size, e, env, vals, w);
      EvalCosts(h, size, Written(h, e, env), env, vals, w);
    }
  }

  // ----- Straight-line code -----

  /** Assignments, evaluations and acts of straight trees. */
  predicate StraightStmt(s: Stmt) {
    match s
    case Assign(_, e) => Straight(e)
    case Evaluate(e) => Straight(e)
    case Act(_, es) => AllStraight(es)
    case _ => false
  }

  predicate StraightList(ss: seq<Stmt>) {
    forall k :: 0 <= k < |ss| ==> StraightStmt(ss[k])
  }

  function StmtCost<W>(h: Ops<W>, s: Stmt, env: Env): nat
    requires s.Fits(|env|) && StraightStmt(s)
  {
    match s
    case Assign(_, e) => Cost(h, e, env)
    case Evaluate(e) => Cost(h, e, env)
    case Act(_, es) => CostAll(h, es, env) + 1
  }

  function ListCost<W>(h: Ops<W>, ss: seq<Stmt>, env: Env): nat
    requires ListFits(ss, |env|) && StraightList(ss)
  {
    if ss == [] then 0 else StmtCost(h, ss[0], env) + ListCost(h, ss[1..], After1(h, ss[0], env))
  }

  lemma Exec1Costs<W(!new)>(h: Ops<W>, size: W -> nat, s: Stmt, env: Env, vals: seq<Val>, w: W)
    requires Loud(h, size) && s.Fits(|env|) && StrangeAll(env, vals) && StraightStmt(s)
    ensures var f := Exec1(h, s, vals, w); f.Goes? && StrangeAll(After1(h, s, env), f.vals) && size(f.w) == size(w) + StmtCost(h, s, env)
  {
    hide Eval, EvalAll, Known, Cost, CostAll, Straight;
    match s
    case Assign(_, e) => EvalCosts(h, size, e, env, vals, w);
    case Evaluate(e) => EvalCosts(h, size, e, env, vals, w);
    case Act(_, es) => EvalAllCosts(h, size, es, env, vals, w);
  }

  lemma {:induction false} ExecCosts<W(!new)>(h: Ops<W>, size: W -> nat, ss: seq<Stmt>, env: Env, vals: seq<Val>, w: W)
    requires Loud(h, size) && ListFits(ss, |env|) && StrangeAll(env, vals) && StraightList(ss)
    ensures var f := Exec(h, ss, vals, w); f.Goes? && size(f.w) == size(w) + ListCost(h, ss, env)
    decreases ss
  {
    if ss != [] {
      hide Exec1, StmtCost, After1, StraightStmt, Loud, StrangeAll;
      Exec1Costs(h, size, ss[0], env, vals, w);
      var f := Exec1(h, ss[0], vals, w);
      ExecCosts(h, size, ss[1..], After1(h, ss[0], env), f.vals, f.w);
    }
  }

  lemma WrittenStmtCosts<W>(h: Ops<W>, s: Stmt, env: Env)
    requires s.Fits(|env|) && StraightStmt(s)
    ensures StraightStmt(Written1(h, s, env)) && After1(h, Written1(h, s, env), env) == After1(h, s, env)
    ensures StmtCost(h, Written1(h, s, env), env) <= StmtCost(h, s, env)
    ensures StmtCost(h, Written1(h, s, env), env) == StmtCost(h, s, env) <==> StmtKeeps(h, s, env)
  {
    hide Known, Written, KeepsEffects, Cost, CostAll, Straight, AllKeep, AllStraight;
    match s
    case Assign(_, e) =>
      WrittenCosts(h, e, env);
      WrittenStraight(h, e, env);
    case Evaluate(e) =>
      WrittenCosts(h, e, env);
      WrittenStraight(h, e, env);
    case Act(_, es) =>
      WrittenAllCosts(h, es, env);
      WrittenAllStraight(h, es, env);
  }

  lemma {:induction false} WrittenListCosts<W>(h: Ops<W>, ss: seq<Stmt>, env: Env)
    requires ListFits(ss, |env|) && StraightList(ss)
    ensures StraightList(WrittenList(h, ss, env)) && ListCost(h, WrittenList(h, ss, env), env) <= ListCost(h, ss, env)
    ensures ListCost(h, WrittenList(h, ss, env), env) == ListCost(h, ss, env) <==> ListKeeps(h, ss, env)
    decreases ss
  {
    if ss != [] {
      hide Written1, StmtCost, After1, StmtKeeps, StraightStmt;
      WrittenStmtCosts(h, ss[0], env);
      var after := After1(h, ss[0], env);
      WrittenListCosts(h, ss[1..], after);
      assert ([Written1(h, ss[0], env)] + WrittenList(h, ss[1..], after))[1..] == WrittenList(h, ss[1..], after);
    }
  }

  /** The same for straight-line code. */
  lemma ListKeepsExactly<W(!new)>(h: Ops<W>, size: W -> nat, ss: seq<Stmt>, env: Env, vals: seq<Val>, w: W)
    requires Loud(h, size) && ListFits(ss, |env|) && StrangeAll(env, vals) && StraightList(ss)
    ensures Exec(h, WrittenList(h, ss, env), vals, w) == Exec(h, ss, vals, w) <==> ListKeeps(h, ss, env)
  {
    hide Exec, WrittenList, ListKeeps, ListCost, StraightList, Loud;
    StrangeDescribes(env, vals);
    if ListKeeps(h, ss, env) {
      WrittenListSound(h, ss, env, vals, w);
    } else {
      WrittenListCosts(h, ss, env);
      ExecCosts(h, size, ss, env, vals, w);
      ExecCosts(h, size, WrittenList(h, ss, env), env, vals, w);
    }
  }
}
