/** What lowering never takes back: ops, lists and constants already emitted stay where they are, and
    temporaries are handed out upwards. */
module Growth {
  import opened Basics
  import opened Bytecode
  import opened Expressions
  import opened Lowering

  /** Program registers come first, temporaries after them, and all are counted. */
  predicate Ok(lw: Lw) {
    lw.nregs <= lw.next <= lw.max && lw.next < NOSLOT
  }

  predicate Grows(lw: Lw, lw2: Lw) {
    && lw.nregs == lw2.nregs && lw.next <= lw2.next && lw.max <= lw2.max
    && lw.ops <= lw2.ops && lw.lists <= lw2.lists && lw.consts <= lw2.consts
  }

  /** The register asked for, if any, is not a temporary still to be handed out. */
  predicate Below(dst: Option<Reg>, next: nat) {
    dst.Some? ==> dst.value < next
  }

  /** What every lowering function ensures of what it returns. */
  predicate Lowered(lw: Lw, lw2: Lw, s: Reg, dst: Option<Reg>) {
    Ok(lw2) && Grows(lw, lw2) && s < lw2.next && (dst.Some? ==> s == dst.value)
  }

  lemma EmitGrows(lw: Lw, op: Op, dst: Option<Reg>)
    requires Ok(lw) && Below(dst, lw.next) && Emit(lw, op, dst).Some?
    ensures Lowered(lw, Emit(lw, op, dst).value.0, Emit(lw, op, dst).value.1, dst)
  {
    hide Placed;
  }

  lemma ConcludeGrows(lw: Lw, kind: Kind, parts: seq<Expr>, slots: seq<Reg>, dst: Option<Reg>)
    requires kind.Takes(|parts|) && |slots| == |Operands(kind, parts)|
    requires Ok(lw) && Below(dst, lw.next) && Conclude(lw, kind, parts, slots, dst).Some?
    ensures Lowered(lw, Conclude(lw, kind, parts, slots, dst).value.0, Conclude(lw, kind, parts, slots, dst).value.1, dst)
  {
    hide OpOf;
  }

  lemma CallGrows(lw: Lw, fs: Reg, os: Reg, slots: seq<Reg>, dst: Option<Reg>)
    requires Ok(lw) && Below(dst, lw.next) && LowerCall(lw, fs, os, slots, dst).Some?
    ensures Lowered(lw, LowerCall(lw, fs, os, slots, dst).value.0, LowerCall(lw, fs, os, slots, dst).value.1, dst)
  {
  }

  lemma {:induction false} LowerGrows(lw: Lw, e: Expr, dst: Option<Reg>)
    requires e.Fits(lw.nregs) && Ok(lw) && Below(dst, lw.next) && Lower(lw, e, dst).Some?
    ensures Lowered(lw, Lower(lw, e, dst).value.0, Lower(lw, e, dst).value.1, dst)
    decreases e, 1
  {
    hide Emit, LowerStrict, LowerMethodCall, LowerShortcut, LowerChoice;
    match e
    case Register(r) =>
    case Literal(n) => EmitGrows(lw, Num(0, n), dst);
    case Constant(k) => EmitGrows(Konst(lw, k), Const(0, |lw.consts|), dst);
    case Text(k) => EmitGrows(Konst(lw, k), Const(0, |lw.consts|), dst);
    case NameOf(k) => EmitGrows(Konst(lw, k), Name(0, |lw.consts|), dst);
    case Leaf(op) => EmitGrows(lw, op, dst);
    case Strict(_, _) =>
      if e.IsMethodCall() {
        MethodCallGrows(lw, e, dst);
      } else {
        StrictGrows(lw, e, dst);
      }
    case Shortcut(_, _, _) => ShortcutGrows(lw, e, dst);
    case Choice(_, _, _) => ChoiceGrows(lw, e, dst);
  }

  lemma {:induction false} StrictGrows(lw: Lw, e: Expr, dst: Option<Reg>)
    requires e.Fits(lw.nregs) && e.Strict? && Ok(lw) && Below(dst, lw.next) && LowerStrict(lw, e, dst).Some?
    ensures Lowered(lw, LowerStrict(lw, e, dst).value.0, LowerStrict(lw, e, dst).value.1, dst)
    decreases e, 0
  {
    hide Conclude;
    OperandsFit(e.kind, e.parts, lw.nregs);
    var es := Operands(e.kind, e.parts);
    AllGrows(lw, es);
    var (lw1, slots) := LowerAll(lw, es).value;
    ConcludeGrows(lw1, e.kind, e.parts, slots, dst);
  }

  lemma {:induction false} MethodCallGrows(lw: Lw, e: Expr, dst: Option<Reg>)
    requires e.Fits(lw.nregs) && e.IsMethodCall() && Ok(lw) && Below(dst, lw.next) && LowerMethodCall(lw, e, dst).Some?
    ensures Lowered(lw, LowerMethodCall(lw, e, dst).value.0, LowerMethodCall(lw, e, dst).value.1, dst)
    decreases e, 0
  {
    hide Lower;
    assert e.parts[0].Fits(lw.nregs);
    MethodGrows(lw, e.parts[0]);
    AllGrows(LowerMethod(lw, e.parts[0]).value.0, e.parts[1..]);
  }

  lemma {:induction false} ShortcutGrows(lw: Lw, e: Expr, dst: Option<Reg>)
    requires e.Fits(lw.nregs) && e.Shortcut? && Ok(lw) && Below(dst, lw.next) && LowerShortcut(lw, e, dst).Some?
    ensures Lowered(lw, LowerShortcut(lw, e, dst).value.0, LowerShortcut(lw, e, dst).value.1, dst)
    decreases e, 0
  {
    hide Lower;
    var (lw0, t) := Temp(lw).value;
    LowerGrows(lw0, e.x, Some(t));
    LowerGrows(Push(Lower(lw0, e.x, Some(t)).value.0, SkipIf(e.link, t, 0)), e.y, Some(t));
  }

  lemma {:induction false} ChoiceGrows(lw: Lw, e: Expr, dst: Option<Reg>)
    requires e.Fits(lw.nregs) && e.Choice? && Ok(lw) && Below(dst, lw.next) && LowerChoice(lw, e, dst).Some?
    ensures Lowered(lw, LowerChoice(lw, e, dst).value.0, LowerChoice(lw, e, dst).value.1, dst)
    decreases e, 0
  {
    hide Lower;
    var (lw0, t) := Temp(lw).value;
    LowerGrows(lw0, e.test, None);
    var (lw1, cs) := Lower(lw0, e.test, None).value;
    LowerGrows(Push(lw1, Jf(cs, 0)), e.x, Some(t));
    var (lw2, _) := Lower(Push(lw1, Jf(cs, 0)), e.x, Some(t)).value;
    LowerGrows(Push(lw2, J(0)).(ops := (lw2.ops + [J(0)])[|lw1.ops| := Jf(cs, |lw2.ops| + 1)]), e.y, Some(t));
  }

  lemma {:induction false} MethodGrows(lw: Lw, e: Expr)
    requires e.Fits(lw.nregs) && e.Strict? && e.kind.Property? && Ok(lw) && LowerMethod(lw, e).Some?
    ensures var (lw2, os, fs) := LowerMethod(lw, e).value;
            Ok(lw2) && Grows(lw, lw2) && os < lw2.next && fs < lw2.next
    decreases e, 1
  {
    hide Lower;
    LowerGrows(lw, e.parts[0], None);
    var (lw1, os) := Lower(lw, e.parts[0], None).value;
    KeyGrows(lw1, e, os);
  }

  lemma {:induction false} KeyGrows(lw: Lw, e: Expr, os: Reg)
    requires e.Fits(lw.nregs) && e.Strict? && e.kind.Property? && Ok(lw) && LowerKey(lw, e, os).Some?
    ensures var (lw2, fs) := LowerKey(lw, e, os).value;
            Ok(lw2) && Grows(lw, lw2) && fs == lw.next < lw2.next
    decreases e, 0
  {
    hide Lower;
    if !e.parts[1].Text? {
      LowerGrows(Temp(lw).value.0, e.parts[1], None);
    }
  }

  lemma {:induction false} AllGrows(lw: Lw, es: seq<Expr>)
    requires Expr.AllFit(es, lw.nregs) && Ok(lw) && LowerAll(lw, es).Some?
    ensures var (lw2, slots) := LowerAll(lw, es).value;
            Ok(lw2) && Grows(lw, lw2) && forall i :: 0 <= i < |slots| ==> slots[i] < lw2.next
    decreases es, 0
  {
    if es != [] {
      LowerGrows(lw, es[0], None);
      AllGrows(Lower(lw, es[0], None).value.0, es[1..]);
    }
  }
}
