/** What evaluation makes of constants: the value of an expression as far as it is known, the tree
    with known values written in, and the same for statements. */
module Propagation {
  import opened Numbers
  import opened Basics
  import opened Bytecode
  import opened Values
  import opened Lattice
  import opened Programs

  // ----- Expressions -----

  function TruthOf(a: AV): Option<bool> {
    if a.Lit? then Some(Truthy(a.v)) else None
  }

  function KnownOr(v: Option<Val>): AV {
    match v
    case Some(u) => Lit(u)
    case None => Bot
  }

  predicate IsZeroAV(a: AV) {
    a.Lit? && IsZeroVal(a.v)
  }

  function Known1<W>(h: Ops<W>, un: UnaryOp, a: AV): AV {
    if un.Void? then Lit(Undef) else if a.Lit? then KnownOr(Fold1(h, un, a.v)) else Bot
  }

  function Known2<W>(h: Ops<W>, bin: BinaryOp, a: AV, b: AV): AV {
    if bin.BitwiseAnd? && (IsZeroAV(a) || IsZeroAV(b)) then Lit(Numeric(ZERO))
    else if a.Lit? && b.Lit? then KnownOr(Fold2(h, bin, a.v, b.v))
    else Bot
  }

  function Known<W>(h: Ops<W>, e: Expr, env: Env): AV
    requires e.Fits(|env|)
  {
    match e
    case Literal(v) => Lit(v)
    case Slot(i) => env[i]
    case Unary(un, x) => Known1(h, un, Known(h, x, env))
    case Binary(bin, x, y) => Known2(h, bin, Known(h, x, env), Known(h, y, env))
    case Logical(link, x, y) =>
      var a := Known(h, x, env);
      if !a.Lit? then Bot else if Settles(link, a.v) then a else Known(h, y, env)
    case Cond(c, x, y) =>
      (match TruthOf(Known(h, c, env))
       case Some(t) => Known(h, if t then x else y, env)
       case None =>
         var a := Known(h, x, env);
         if a.Lit? && a == Known(h, y, env) then a else Bot)
    case Other(_, _) => Bot
  }

  /** The tree after evaluation: known values are written in place of what has them, and the parts
      that evaluation did not look at stay as they are. */
  function Written<W>(h: Ops<W>, e: Expr, env: Env): (r: Expr)
    requires e.Fits(|env|)
    ensures r.Fits(|env|)
    decreases e, 1
  {
    var a := Known(h, e, env);
    if a.Lit? then Literal(a.v) else
    match e
    case Literal(_) => e
    case Slot(_) => e
    case Unary(un, x) => Expr.Unary(un, Written(h, x, env))
    case Binary(bin, x, y) => Expr.Binary(bin, Written(h, x, env), Written(h, y, env))
    case Logical(link, x, y) => Logical(link, Written(h, x, env), Written(h, y, env))
    case Cond(c, x, y) =>
      (match TruthOf(Known(h, c, env))
       case Some(t) =>
         Cond(Written(h, c, env), if t then Written(h, x, env) else x, if t then y else Written(h, y, env))
       case None => Cond(Written(h, c, env), Written(h, x, env), Written(h, y, env)))
    case Other(tag, kids) => Expr.Other(tag, WrittenAll(h, kids, env))
  }

  function WrittenAll<W>(h: Ops<W>, es: seq<Expr>, env: Env): (r: seq<Expr>)
    requires AllFit(es, |env|)
    ensures AllFit(r, |env|) && |r| == |es|
    decreases es, 0
  {
    if es == [] then [] else [Written(h, es[0], env)] + WrittenAll(h, es[1..], env)
  }

  // ----- Statements -----

  function After<W>(h: Ops<W>, ss: seq<Stmt>, env: Env): (r: Env)
    requires ListFits(ss, |env|)
    ensures |r| == |env|
    decreases ss, 0
  {
    if ss == [] then env else After(h, ss[1..], After1(h, ss[0], env))
  }

  function After1<W>(h: Ops<W>, s: Stmt, env: Env): (r: Env)
    requires s.Fits(|env|)
    ensures |r| == |env|
    decreases s, 1
  {
    match s
    case Assign(i, e) => env[i := Known(h, e, env)]
    case If(c, t, e) =>
      (match TruthOf(Known(h, c, env))
       case Some(b) => After(h, if b then t else e, env)
       case None => MeetAll(After(h, e, env), After(h, t, env)))
    case _ => env
  }

  function WrittenList<W>(h: Ops<W>, ss: seq<Stmt>, env: Env): (r: seq<Stmt>)
    requires ListFits(ss, |env|)
    ensures ListFits(r, |env|)
    decreases ss, 0
  {
    if ss == [] then [] else [Written1(h, ss[0], env)] + WrittenList(h, ss[1..], After1(h, ss[0], env))
  }

  function Written1<W>(h: Ops<W>, s: Stmt, env: Env): (r: Stmt)
    requires s.Fits(|env|)
    ensures r.Fits(|env|)
    decreases s, 1
  {
    match s
    case Assign(i, e) => Assign(i, Written(h, e, env))
    case Evaluate(e) => Evaluate(Written(h, e, env))
    case Act(tag, es) => Act(tag, WrittenAll(h, es, env))
    case If(c, t, e) =>
      (match TruthOf(Known(h, c, env))
       case Some(b) =>
         If(Written(h, c, env), if b then WrittenList(h, t, env) else t, if b then e else WrittenList(h, e, env))
       case None => If(Written(h, c, env), WrittenList(h, t, env), WrittenList(h, e, env)))
    case Return(e) => Return(Written(h, e, env))
    case Throw(e) => Stmt.Throw(Written(h, e, env))
    case Jump(e) => Stmt.Jump(Written(h, e, env))
    case Halt => s
  }

  // ----- Soundness -----

  lemma Known1Sound<W>(h: Ops<W>, un: UnaryOp, a: AV, v: Val, w: W)
    requires Describes(a, v) && Run1(h, un, v, w).Yields?
    ensures Describes(Known1(h, un, a), Run1(h, un, v, w).r)
  {
  }

  lemma Known2Sound<W>(h: Ops<W>, bin: BinaryOp, a: AV, b: AV, l: Val, r: Val, w: W)
    requires Describes(a, l) && Describes(b, r) && Run2(h, bin, l, r, w).Yields?
    ensures Describes(Known2(h, bin, a, b), Run2(h, bin, l, r, w).r)
  {
  }

  /** A value that evaluation knows is the one a run computes, if it computes one. */
  lemma {:induction false} KnownSound<W>(h: Ops<W>, e: Expr, env: Env, vals: seq<Val>, w: W)
    requires e.Fits(|env|) && DescribesAll(env, vals) && Eval(h, e, vals, w).Yields?
    ensures Describes(Known(h, e, env), Eval(h, e, vals, w).r)
  {
    match e
    case Literal(_) =>
    case Slot(_) =>
    case Unary(un, x) =>
      KnownSound(h, x, env, vals, w);
      var l := Eval(h, x, vals, w);
      Known1Sound(h, un, Known(h, x, env), l.r, l.w);
    case Binary(bin, x, y) =>
      KnownSound(h, x, env, vals, w);
      var l := Eval(h, x, vals, w);
      KnownSound(h, y, env, vals, l.w);
      var r := Eval(h, y, vals, l.w);
      Known2Sound(h, bin, Known(h, x, env), Known(h, y, env), l.r, r.r, r.w);
    case Logical(link, x, y) =>
      KnownSound(h, x, env, vals, w);
      var l := Eval(h, x, vals, w);
      if !Settles(link, l.r) {
        KnownSound(h, y, env, vals, l.w);
      }
    case Cond(c, x, y) =>
      KnownSound(h, c, env, vals, w);
      var l := Eval(h, c, vals, w);
      KnownSound(h, if Truthy(l.r) then x else y, env, vals, l.w);
    case Other(_, _) =>
  }

  lemma MeetDescribes(a: Env, b: Env, vals: seq<Val>)
    requires |a| == |b| && (DescribesAll(a, vals) || DescribesAll(b, vals))
    ensures DescribesAll(MeetAll(a, b), vals)
  {
  }

  lemma {:induction false} AfterSound<W>(h: Ops<W>, ss: seq<Stmt>, env: Env, vals: seq<Val>, w: W)
    requires ListFits(ss, |env|) && DescribesAll(env, vals) && Exec(h, ss, vals, w).Goes?
    ensures DescribesAll(After(h, ss, env), Exec(h, ss, vals, w).vals)
    decreases ss, 0
  {
    if ss != [] {
      After1Sound(h, ss[0], env, vals, w);
      var f := Exec1(h, ss[0], vals, w);
      AfterSound(h, ss[1..], After1(h, ss[0], env), f.vals, f.w);
    }
  }

  lemma {:induction false} After1Sound<W>(h: Ops<W>, s: Stmt, env: Env, vals: seq<Val>, w: W)
    requires s.Fits(|env|) && DescribesAll(env, vals) && Exec1(h, s, vals, w).Goes?
    ensures DescribesAll(After1(h, s, env), Exec1(h, s, vals, w).vals)
    decreases s, 1
  {
    match s
    case Assign(i, e) => KnownSound(h, e, env, vals, w);
    case If(c, t, e) =>
      KnownSound(h, c, env, vals, w);
      var v := Eval(h, c, vals, w);
      AfterSound(h, if Truthy(v.r) then t else e, env, vals, v.w);
      if TruthOf(Known(h, c, env)).None? {
        MeetDescribes(After(h, e, env), After(h, t, env), Exec1(h, s, vals, w).vals);
      }
    case _ =>
  }

  // ----- Nothing is unreached where nothing was -----

  lemma {:induction false} KnownWhole<W>(h: Ops<W>, e: Expr, env: Env)
    requires e.Fits(|env|) && Whole(env)
    ensures !Known(h, e, env).Top?
  {
    match e
    case Logical(_, x, y) =>
      KnownWhole(h, x, env);
      KnownWhole(h, y, env);
    case Cond(_, x, y) =>
      KnownWhole(h, x, env);
      KnownWhole(h, y, env);
    case _ =>
  }

  lemma {:induction false} AfterWhole<W>(h: Ops<W>, ss: seq<Stmt>, env: Env)
    requires ListFits(ss, |env|) && Whole(env)
    ensures Whole(After(h, ss, env))
    decreases ss, 0
  {
    if ss != [] {
      hide After1;
      After1Whole(h, ss[0], env);
      AfterWhole(h, ss[1..], After1(h, ss[0], env));
    }
  }

  lemma {:induction false} After1Whole<W>(h: Ops<W>, s: Stmt, env: Env)
    requires s.Fits(|env|) && Whole(env)
    ensures Whole(After1(h, s, env))
    decreases s, 1
  {
    match s
    case Assign(_, e) => KnownWhole(h, e, env);
    case If(_, t, e) =>
      AfterWhole(h, t, env);
      AfterWhole(h, e, env);
    case _ =>
  }
}
