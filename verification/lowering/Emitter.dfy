/** The lowering as it is carried out: one object to which ops, lists and constants are appended, and
    whose jumps are filled in once their targets are known. Every method does to the object what
    the lowering function does to its value. */
module Emitter {
  import opened Basics
  import opened Bytecode
  import opened Expressions
  import opened Lowering

  class Emitter {
    const nregs: nat
    var ops: seq<Op>
    var lists: seq<Reg>
    var consts: seq<nat>
    var next: Reg
    var max: nat

    ghost function Now(): Lw
      reads this
    {
      Lw(nregs, ops, lists, consts, next, max)
    }

    /** Nothing is emitted yet, and temporaries start after the program registers. */
    constructor (n: nat)
      ensures Now() == Fresh(n)
    {
      nregs, next, max := n, n, n;
      ops, lists, consts := [], [], [];
    }

    method AddOp(op: Op)
      modifies `ops
      ensures Now() == Push(old(Now()), op)
    {
      ops := ops + [op];
    }

    method AddConst(k: nat) returns (c: nat)
      modifies `consts
      ensures c == |old(consts)| && Now() == Konst(old(Now()), k)
    {
      consts := consts + [k];
      c := |consts| - 1;
    }

    method NewTemp() returns (t: Option<Reg>)
      modifies `next, `max
      ensures Gives(Temp(old(Now())), t)
    {
      if next >= NOSLOT - 1 {
        return None;
      }
      t := Some(next);
      next := next + 1;
      max := if max < next then next else max;
    }

    /** The function gives up exactly if the method does, and otherwise gives the same register and
        leaves the same state behind. */
    ghost predicate Gives(spec: Option<(Lw, Reg)>, r: Option<Reg>)
      reads this
    {
      match r
      case None => spec.None?
      case Some(s) => spec == Some((Now(), s))
    }

    method DestFor(dst: Option<Reg>) returns (r: Option<Reg>)
      modifies `next, `max
      ensures Gives(Dest(old(Now()), dst), r)
    {
      if dst.Some? {
        r := dst;
      } else {
        r := NewTemp();
      }
    }

    method EmitOp(op: Op, dst: Option<Reg>) returns (r: Option<Reg>)
      modifies this
      ensures Gives(Emit(old(Now()), op, dst), r)
    {
      r := DestFor(dst);
      if r.Some? {
        AddOp(Placed(op, r.value));
      }
    }

    method EmitConst(k: nat, dst: Option<Reg>) returns (r: Option<Reg>)
      modifies this
      ensures Gives(Emit(Konst(old(Now()), k), Const(0, |old(consts)|), dst), r)
    {
      var c := AddConst(k);
      r := EmitOp(Const(0, c), dst);
    }

    /** Fills in the target of the jump at `at`. */
    method SetTarget(at: nat, op: Op)
      requires at < |ops|
      modifies `ops
      ensures Now() == old(Now()).(ops := old(ops)[at := op])
    {
      ops := ops[at := op];
    }

    method LowerExpr(e: Expr, dst: Option<Reg>) returns (r: Option<Reg>)
      requires e.Fits(nregs)
      modifies this
      ensures Gives(Lower(old(Now()), e, dst), r)
      decreases e, 1
    {
      match e
      case Register(s) =>
        if dst.Some? {
          if dst.value != s {
            AddOp(Move(dst.value, s));
          }
          r := dst;
        } else {
          r := Some(s);
        }
      case Literal(n) => r := EmitOp(Num(0, n), dst);
      case Constant(k) => r := EmitConst(k, dst);
      case Text(k) => r := EmitConst(k, dst);
      case NameOf(k) =>
        var c := AddConst(k);
        r := EmitOp(Name(0, c), dst);
      case Leaf(op) => r := EmitOp(op, dst);
      case Strict(_, _) =>
        if e.IsMethodCall() {
          r := EmitMethodCall(e, dst);
        } else {
          r := EmitStrict(e, dst);
        }
      case Shortcut(_, _, _) => r := EmitShortcut(e, dst);
      case Choice(_, _, _) => r := EmitChoice(e, dst);
    }

    /** Lowers expressions one after the other. */
    method LowerEach(es: seq<Expr>) returns (r: Option<seq<Reg>>)
      requires Expr.AllFit(es, nregs)
      modifies this
      ensures match r
              case None => LowerAll(old(Now()), es).None?
              case Some(slots) => LowerAll(old(Now()), es) == Some((Now(), slots))
      decreases es, 0
    {
      var slots: seq<Reg> := [];
      assert es[0..] == es;
      PrefixedNone(LowerAll(Now(), es));
      for i := 0 to |es|
        invariant |slots| == i
        invariant LowerAll(old(Now()), es) == Prefixed(slots, LowerAll(Now(), es[i..]))
      {
        assert es[i..][0] == es[i] && es[i..][1..] == es[i + 1..];
        ghost var before, was := Now(), slots;
        var s := LowerExpr(es[i], None);
        if s.None? {
          return None;
        }
        slots := slots + [s.value];
        PrefixedOn(was, s.value, LowerAll(Now(), es[i + 1..]));
      }
      assert es[|es|..] == [] && slots + [] == slots;
      return Some(slots);
    }

    /** Puts registers into the list pool, and says where. */
    method AddList(slots: seq<Reg>) returns (a: nat)
      modifies `lists
      ensures a == |old(lists)| && Now() == old(Now()).(lists := old(lists) + slots)
    {
      a := |lists|;
      lists := lists + slots;
    }

    method EmitStrict(e: Expr, dst: Option<Reg>) returns (r: Option<Reg>)
      requires e.Fits(nregs) && e.Strict?
      modifies this
      ensures Gives(LowerStrict(old(Now()), e, dst), r)
      decreases e, 0
    {
      OperandsFit(e.kind, e.parts, nregs);
      var slots := LowerEach(Operands(e.kind, e.parts));
      if slots.None? {
        return None;
      }
      var c := |consts|;
      if e.kind.Property? && e.parts[1].Text? {
        c := AddConst(e.parts[1].k);
      }
      var a := AddList(Listed(e.kind, slots.value));
      r := DestFor(dst);
      if r.Some? {
        AddOp(OpOf(e.kind, e.parts, slots.value, a, c, r.value));
      }
    }

    method EmitMethodCall(e: Expr, dst: Option<Reg>) returns (r: Option<Reg>)
      requires e.Fits(nregs) && e.IsMethodCall()
      modifies this
      ensures Gives(LowerMethodCall(old(Now()), e, dst), r)
      decreases e, 0
    {
      var m := e.parts[0];
      assert m.Fits(nregs);
      var os := LowerExpr(m.parts[0], None);
      if os.None? {
        return None;
      }
      var fs := EmitKey(m, os.value);
      if fs.None? {
        return None;
      }
      var slots := LowerEach(e.parts[1..]);
      if slots.None? {
        return None;
      }
      var a := AddList(slots.value);
      r := DestFor(dst);
      if r.Some? {
        AddOp(Call(r.value, fs.value, os.value, a, Low16(|slots.value|)));
      }
    }

    /** Reads the property of a method call, of an object that is in os. */
    method EmitKey(m: Expr, os: Reg) returns (r: Option<Reg>)
      requires m.Fits(nregs) && m.Strict? && m.kind.Property?
      modifies this
      ensures Gives(LowerKey(old(Now()), m, os), r)
      decreases m, 0
    {
      var key := m.parts[1];
      r := NewTemp();
      if r.None? {
        return;
      }
      if key.Text? {
        var c := AddConst(key.k);
        AddOp(MemberK(r.value, os, c));
      } else {
        var ks := LowerExpr(key, None);
        if ks.None? {
          return None;
        }
        AddOp(Member(r.value, os, ks.value));
      }
    }

    method EmitShortcut(e: Expr, dst: Option<Reg>) returns (r: Option<Reg>)
      requires e.Fits(nregs) && e.Shortcut?
      modifies this
      ensures Gives(LowerShortcut(old(Now()), e, dst), r)
      decreases e, 0
    {
      var t := NewTemp();
      if t.None? {
        return None;
      }
      var x := LowerExpr(e.x, t);
      if x.None? {
        return None;
      }
      var at := |ops|;
      AddOp(SkipIf(e.link, t.value, 0));
      var y := LowerExpr(e.y, t);
      if y.None? {
        return None;
      }
      SetTarget(at, SkipIf(e.link, t.value, |ops|));
      r := MoveFrom(t.value, dst);
    }

    method MoveFrom(t: Reg, dst: Option<Reg>) returns (r: Option<Reg>)
      modifies `ops
      ensures Gives(Some(Settle(old(Now()), t, dst)), r)
    {
      if dst.Some? {
        AddOp(Move(dst.value, t));
        r := dst;
      } else {
        r := Some(t);
      }
    }

    method EmitChoice(e: Expr, dst: Option<Reg>) returns (r: Option<Reg>)
      requires e.Fits(nregs) && e.Choice?
      modifies this
      ensures Gives(LowerChoice(old(Now()), e, dst), r)
      decreases e, 0
    {
      hide Lower, Settle;
      ghost var start := Now();
      var t := NewTemp();
      if t.None? {
        return None;
      }
      hide Temp, LowerChoice;
      ghost var lw0 := Now();
      var cs := LowerExpr(e.test, None);
      if cs.None? {
        ChoiceStops(start, e, dst, lw0, t.value);
        return None;
      }
      ghost var lw1 := Now();
      var at := |ops|;
      AddOp(Jf(cs.value, 0));
      var x := LowerExpr(e.x, t);
      if x.None? {
        FirstArmStops(start, e, dst, lw0, t.value, lw1, cs.value);
        return None;
      }
      ghost var lw2 := Now();
      LowerLonger(Push(lw1, Jf(cs.value, 0)), e.x, t);
      var end := |ops|;
      AddOp(J(0));
      SetTarget(at, Jf(cs.value, |ops|));
      assert Now() == Armed(lw1, lw2, cs.value);
      var y := LowerExpr(e.y, t);
      if y.None? {
        SecondArmStops(start, e, dst, lw0, t.value, lw1, cs.value, lw2, x.value);
        return None;
      }
      ghost var lw3 := Now();
      LowerLonger(Armed(lw1, lw2, cs.value), e.y, t);
      SetTarget(end, J(|ops|));
      ChoiceEnds(start, e, dst, lw0, t.value, lw1, cs.value, lw2, x.value, lw3, y.value);
      r := MoveFrom(t.value, dst);
    }
  }

  /** The jump over the first arm is emitted, and the one to the second filled in. */
  ghost function Armed(lw1: Lw, lw2: Lw, cs: Reg): Lw
    requires |lw1.ops| < |lw2.ops|
  {
    Push(lw2, J(0)).(ops := (lw2.ops + [J(0)])[|lw1.ops| := Jf(cs, |lw2.ops| + 1)])
  }

  lemma LowerLonger(lw: Lw, e: Expr, t: Option<Reg>)
    requires e.Fits(lw.nregs)
    ensures Lower(lw, e, t).Some? ==> Lower(lw, e, t).value.0.nregs == lw.nregs && |lw.ops| <= |Lower(lw, e, t).value.0.ops|
  {
    hide Lower;
  }

  /** Where one of its steps gives up, so does the lowering of a conditional. */
  lemma ChoiceStops(lw: Lw, e: Expr, dst: Option<Reg>, lw0: Lw, t: Reg)
    requires e.Fits(lw.nregs) && e.Choice? && Temp(lw) == Some((lw0, t)) && lw0.nregs == lw.nregs && Lower(lw0, e.test, None).None?
    ensures LowerChoice(lw, e, dst).None?
  {
    hide Lower;
  }

  lemma FirstArmStops(lw: Lw, e: Expr, dst: Option<Reg>, lw0: Lw, t: Reg, lw1: Lw, cs: Reg)
    requires e.Fits(lw.nregs) && e.Choice? && Temp(lw) == Some((lw0, t)) && lw0.nregs == lw1.nregs == lw.nregs
    requires Lower(lw0, e.test, None) == Some((lw1, cs)) && Lower(Push(lw1, Jf(cs, 0)), e.x, Some(t)).None?
    ensures LowerChoice(lw, e, dst).None?
  {
    hide Lower;
  }

  lemma SecondArmStops(lw: Lw, e: Expr, dst: Option<Reg>, lw0: Lw, t: Reg, lw1: Lw, cs: Reg, lw2: Lw, x: Reg)
    requires e.Fits(lw.nregs) && e.Choice? && Temp(lw) == Some((lw0, t)) && lw0.nregs == lw1.nregs == lw2.nregs == lw.nregs
    requires Lower(lw0, e.test, None) == Some((lw1, cs)) && |lw1.ops| < |lw2.ops|
    requires Lower(Push(lw1, Jf(cs, 0)), e.x, Some(t)) == Some((lw2, x)) && Lower(Armed(lw1, lw2, cs), e.y, Some(t)).None?
    ensures LowerChoice(lw, e, dst).None?
  {
    hide Lower;
  }

  lemma ChoiceEnds(lw: Lw, e: Expr, dst: Option<Reg>, lw0: Lw, t: Reg, lw1: Lw, cs: Reg, lw2: Lw, x: Reg, lw3: Lw, y: Reg)
    requires e.Fits(lw.nregs) && e.Choice? && Temp(lw) == Some((lw0, t)) && lw0.nregs == lw1.nregs == lw2.nregs == lw.nregs
    requires Lower(lw0, e.test, None) == Some((lw1, cs)) && |lw1.ops| < |lw2.ops| < |lw3.ops|
    requires Lower(Push(lw1, Jf(cs, 0)), e.x, Some(t)) == Some((lw2, x))
    requires Lower(Armed(lw1, lw2, cs), e.y, Some(t)) == Some((lw3, y))
    ensures LowerChoice(lw, e, dst) == Some(Settle(lw3.(ops := lw3.ops[|lw2.ops| := J(|lw3.ops|)]), t, dst))
  {
    hide Lower, Settle;
  }

  ghost function Prefixed(slots: seq<Reg>, r: Option<(Lw, seq<Reg>)>): Option<(Lw, seq<Reg>)> {
    match r
    case None => None
    case Some((lw, rest)) => Some((lw, slots + rest))
  }

  lemma PrefixedNone(r: Option<(Lw, seq<Reg>)>)
    ensures Prefixed([], r) == r
  {
    if r.Some? {
      assert [] + r.value.1 == r.value.1;
    }
  }

  lemma PrefixedOn(slots: seq<Reg>, s: Reg, r: Option<(Lw, seq<Reg>)>)
    ensures Prefixed(slots + [s], r) == Prefixed(slots, Prefixed([s], r))
  {
    if r.Some? {
      assert slots + [s] + r.value.1 == slots + ([s] + r.value.1);
    }
  }
}
