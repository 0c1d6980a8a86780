/** Emitted ops stay within the registers counted and the lists pooled, and jump only forward, to a
    place in what was emitted with them. */
module Bounds {
  import opened Basics
  import opened Bytecode
  import opened Expressions
  import opened Lowering
  import opened Growth

  ghost predicate Closed(lw: Lw, lw2: Lw) {
    forall i :: |lw.ops| <= i < |lw2.ops| ==> ClosedAt(lw, lw2, i)
  }

  ghost predicate ClosedAt(lw: Lw, lw2: Lw, i: nat)
    requires i < |lw2.ops|
  {
    && lw2.ops[i].WithinRegs(lw2.lists, lw2.max)
    && forall t :: t in lw2.ops[i].Targets() ==> |lw.ops| <= i < t <= |lw2.ops|
  }

  lemma WithinMore(op: Op, lists: seq<Reg>, n: nat, lists2: seq<Reg>, n2: nat)
    requires op.WithinRegs(lists, n) && lists <= lists2 && n <= n2
    ensures op.WithinRegs(lists2, n2)
  {
    if op.Call? || op.New? || op.ApplyL? || op.Array? || op.Object? {
      assert lists2[op.a..op.a + op.count] == lists[op.a..op.a + op.count];
    }
    assert op.Reads(lists2) == op.Reads(lists);
  }

  lemma ClosedOn(a: Lw, b: Lw, c: Lw)
    requires Grows(a, b) && Grows(b, c) && Closed(a, b) && Closed(b, c)
    ensures Closed(a, c)
  {
    hide Op.WithinRegs, Op.Targets;
    forall i | |a.ops| <= i < |c.ops| ensures ClosedAt(a, c, i) {
      if i < |b.ops| {
        assert ClosedAt(a, b, i);
        WithinMore(b.ops[i], b.lists, b.max, c.lists, c.max);
      } else {
        assert ClosedAt(b, c, i);
      }
    }
  }

  /** One more op. */
  lemma ClosedByOp(lw: Lw, lw2: Lw)
    requires |lw2.ops| == |lw.ops| + 1 && lw2.ops[|lw.ops|].WithinRegs(lw2.lists, lw2.max)
    requires lw2.ops[|lw.ops|].Targets() == {}
    ensures Closed(lw, lw2)
  {
    hide Op.WithinRegs;
    forall i | |lw.ops| <= i < |lw2.ops| ensures ClosedAt(lw, lw2, i) {
      assert i == |lw.ops|;
    }
  }

  lemma EmitClosed(lw: Lw, op: Op, dst: Option<Reg>)
    requires IsLeaf(op) || op.Num? || op.Const? || op.Name?
    requires Ok(lw) && Below(dst, lw.next) && Emit(lw, op, dst).Some?
    ensures Closed(lw, Emit(lw, op, dst).value.0)
  {
    var (lw2, s) := Emit(lw, op, dst).value;
    EmitGrows(lw, op, dst);
    PlacedWithin(op, s, lw2.lists, lw2.max);
    ClosedByOp(lw, lw2);
  }

  lemma PlacedWithin(op: Op, d: Reg, lists: seq<Reg>, n: nat)
    requires (IsLeaf(op) || op.Num? || op.Const? || op.Name?) && d < n
    ensures Placed(op, d).WithinRegs(lists, n) && Placed(op, d).Targets() == {}
  {
  }

  ghost predicate AllBelow(slots: seq<Reg>, n: nat) {
    forall i :: 0 <= i < |slots| ==> slots[i] < n
  }

  lemma ConcludeClosed(lw: Lw, kind: Kind, parts: seq<Expr>, slots: seq<Reg>, dst: Option<Reg>)
    requires kind.Takes(|parts|) && |slots| == |Operands(kind, parts)| && AllBelow(slots, lw.next)
    requires Ok(lw) && Below(dst, lw.next) && Conclude(lw, kind, parts, slots, dst).Some?
    ensures Closed(lw, Conclude(lw, kind, parts, slots, dst).value.0)
  {
    hide OpOf, Op.Reads, Op.Targets;
    var (lw2, s) := Conclude(lw, kind, parts, slots, dst).value;
    var a := |lw.lists|;
    assert lw2.lists[a..a + |Listed(kind, slots)|] == Listed(kind, slots);
    OpWithin(kind, parts, slots, a, |lw.consts|, s, lw2.lists, lw2.max);
    ClosedByOp(lw, lw2);
  }

  lemma OpWithin(kind: Kind, parts: seq<Expr>, slots: seq<Reg>, a: nat, c: nat, d: Reg, lists: seq<Reg>, n: nat)
    requires kind.Takes(|parts|) && |slots| == |Operands(kind, parts)| && AllBelow(slots, n) && d < n
    requires a + |Listed(kind, slots)| <= |lists| && lists[a..a + |Listed(kind, slots)|] == Listed(kind, slots)
    ensures OpOf(kind, parts, slots, a, c, d).WithinRegs(lists, n) && OpOf(kind, parts, slots, a, c, d).Targets() == {}
  {
    if kind.Invoke? || kind.Build? || kind.ListOf? || kind.RecordOf? {
      hide Op.WithinRegs, Op.Targets, OpOf;
      ListWithin(kind, slots, a, lists, n);
      ListOpWithin(kind, parts, slots, a, c, d, lists, n);
    } else {
      hide Op.WithinRegs, Op.Targets, OpOf;
      PlainOpWithin(kind, parts, slots, a, c, d, lists, n);
    }
  }

  lemma PlainOpWithin(kind: Kind, parts: seq<Expr>, slots: seq<Reg>, a: nat, c: nat, d: Reg, lists: seq<Reg>, n: nat)
    requires !kind.Invoke? && !kind.Build? && !kind.ListOf? && !kind.RecordOf?
    requires kind.Takes(|parts|) && |slots| == |Operands(kind, parts)| && AllBelow(slots, n) && d < n
    ensures OpOf(kind, parts, slots, a, c, d).WithinRegs(lists, n) && OpOf(kind, parts, slots, a, c, d).Targets() == {}
  {
  }

  lemma ListOpWithin(kind: Kind, parts: seq<Expr>, slots: seq<Reg>, a: nat, c: nat, d: Reg, lists: seq<Reg>, n: nat)
    requires kind.Invoke? || kind.Build? || kind.ListOf? || kind.RecordOf?
    requires kind.Takes(|parts|) && |slots| == |Operands(kind, parts)| && AllBelow(slots, n) && d < n
    requires var m := Low16(|Listed(kind, slots)|); a + m <= |lists| && AllBelow(lists[a..a + m], n)
    ensures OpOf(kind, parts, slots, a, c, d).WithinRegs(lists, n) && OpOf(kind, parts, slots, a, c, d).Targets() == {}
  {
  }

  lemma ListWithin(kind: Kind, slots: seq<Reg>, a: nat, lists: seq<Reg>, n: nat)
    requires AllBelow(slots, n) && (kind.Takes(|slots|) && (kind.Invoke? || kind.Build? || kind.ListOf? || kind.RecordOf?))
    requires a + |Listed(kind, slots)| <= |lists| && lists[a..a + |Listed(kind, slots)|] == Listed(kind, slots)
    ensures var m := Low16(|Listed(kind, slots)|); a + m <= |lists| && AllBelow(lists[a..a + m], n)
  {
    var listed := Listed(kind, slots);
    var m := Low16(|listed|);
    assert lists[a..a + m] == listed[..m];
  }

  lemma CallClosed(lw: Lw, fs: Reg, os: Reg, slots: seq<Reg>, dst: Option<Reg>)
    requires Ok(lw) && Below(dst, lw.next) && LowerCall(lw, fs, os, slots, dst).Some?
    requires fs < lw.next && os < lw.next && AllBelow(slots, lw.next)
    ensures Closed(lw, LowerCall(lw, fs, os, slots, dst).value.0)
  {
    var (lw2, s) := LowerCall(lw, fs, os, slots, dst).value;
    var a := |lw.lists|;
    assert lw2.lists[a..] == slots;
    ClosedByOp(lw, lw2);
  }

  lemma {:induction false} LowerClosed(lw: Lw, e: Expr, dst: Option<Reg>)
    requires e.Fits(lw.nregs) && Ok(lw) && Below(dst, lw.next) && Lower(lw, e, dst).Some?
    ensures Closed(lw, Lower(lw, e, dst).value.0)
    decreases e, 1
  {
    hide Emit, Closed, LowerStrict, LowerMethodCall, LowerShortcut, LowerChoice;
    match e
    case Register(r) =>
      var lw2 := Lower(lw, e, dst).value.0;
      if lw2 == lw {
        NothingClosed(lw);
      } else {
        MoveClosed(lw, dst.value, r);
      }
    case Literal(n) => EmitClosed(lw, Num(0, n), dst);
    case Constant(k) => KonstClosed(lw, k, Const(0, |lw.consts|), dst);
    case Text(k) => KonstClosed(lw, k, Const(0, |lw.consts|), dst);
    case NameOf(k) => KonstClosed(lw, k, Name(0, |lw.consts|), dst);
    case Leaf(op) => EmitClosed(lw, op, dst);
    case Strict(_, _) =>
      if e.IsMethodCall() {
        MethodCallClosed(lw, e, dst);
      } else {
        StrictClosed(lw, e, dst);
      }
    case Shortcut(_, _, _) => ShortcutClosed(lw, e, dst);
    case Choice(_, _, _) => ChoiceClosed(lw, e, dst);
  }

  lemma NothingClosed(lw: Lw)
    ensures Closed(lw, lw)
  {
  }

  lemma MoveClosed(lw: Lw, d: Reg, s: Reg)
    requires d < lw.max && s < lw.max
    ensures Closed(lw, Push(lw, Move(d, s)))
  {
    ClosedByOp(lw, Push(lw, Move(d, s)));
  }

  lemma KonstClosed(lw: Lw, k: nat, op: Op, dst: Option<Reg>)
    requires op.Const? || op.Name?
    requires Ok(lw) && Below(dst, lw.next) && Emit(Konst(lw, k), op, dst).Some?
    ensures Closed(lw, Emit(Konst(lw, k), op, dst).value.0)
  {
    hide Op.WithinRegs, Op.Targets;
    var lw2 := Emit(Konst(lw, k), op, dst).value.0;
    EmitClosed(Konst(lw, k), op, dst);
    forall i | |lw.ops| <= i < |lw2.ops| ensures ClosedAt(lw, lw2, i) {
      assert ClosedAt(Konst(lw, k), lw2, i);
    }
  }

  lemma {:induction false} AllClosed(lw: Lw, es: seq<Expr>)
    requires Expr.AllFit(es, lw.nregs) && Ok(lw) && LowerAll(lw, es).Some?
    ensures Closed(lw, LowerAll(lw, es).value.0)
    decreases es, 0
  {
    hide Closed;
    if es == [] {
      NothingClosed(lw);
    } else {
      LowerGrows(lw, es[0], None);
      LowerClosed(lw, es[0], None);
      var lw1 := Lower(lw, es[0], None).value.0;
      AllGrows(lw1, es[1..]);
      AllClosed(lw1, es[1..]);
      ClosedOn(lw, lw1, LowerAll(lw, es).value.0);
    }
  }

  lemma {:induction false} StrictClosed(lw: Lw, e: Expr, dst: Option<Reg>)
    requires e.Fits(lw.nregs) && e.Strict? && Ok(lw) && Below(dst, lw.next) && LowerStrict(lw, e, dst).Some?
    ensures Closed(lw, LowerStrict(lw, e, dst).value.0)
    decreases e, 0
  {
    hide Closed, Conclude;
    OperandsFit(e.kind, e.parts, lw.nregs);
    var es := Operands(e.kind, e.parts);
    AllGrows(lw, es);
    AllClosed(lw, es);
    var (lw1, slots) := LowerAll(lw, es).value;
    ConcludeGrows(lw1, e.kind, e.parts, slots, dst);
    ConcludeClosed(lw1, e.kind, e.parts, slots, dst);
    ClosedOn(lw, lw1, LowerStrict(lw, e, dst).value.0);
  }

  lemma {:induction false} MethodCallClosed(lw: Lw, e: Expr, dst: Option<Reg>)
    requires e.Fits(lw.nregs) && e.IsMethodCall() && Ok(lw) && Below(dst, lw.next) && LowerMethodCall(lw, e, dst).Some?
    ensures Closed(lw, LowerMethodCall(lw, e, dst).value.0)
    decreases e, 0
  {
    hide Closed, LowerMethod, LowerCall;
    var m, rest := e.parts[0], e.parts[1..];
    assert m.Fits(lw.nregs);
    MethodGrows(lw, m);
    MethodClosed(lw, m);
    var (lw1, os, fs) := LowerMethod(lw, m).value;
    AllGrows(lw1, rest);
    AllClosed(lw1, rest);
    var (lw2, slots) := LowerAll(lw1, rest).value;
    CallGrows(lw2, fs, os, slots, dst);
    CallClosed(lw2, fs, os, slots, dst);
    ClosedOn(lw, lw1, lw2);
    ClosedOn(lw, lw2, LowerMethodCall(lw, e, dst).value.0);
  }

  lemma {:induction false} MethodClosed(lw: Lw, e: Expr)
    requires e.Fits(lw.nregs) && e.Strict? && e.kind.Property? && Ok(lw) && LowerMethod(lw, e).Some?
    ensures Closed(lw, LowerMethod(lw, e).value.0)
    decreases e, 1
  {
    hide Closed, LowerKey;
    LowerGrows(lw, e.parts[0], None);
    LowerClosed(lw, e.parts[0], None);
    var (lw1, os) := Lower(lw, e.parts[0], None).value;
    KeyGrows(lw1, e, os);
    KeyClosed(lw1, e, os);
    ClosedOn(lw, lw1, LowerMethod(lw, e).value.0);
  }

  lemma {:induction false} KeyClosed(lw: Lw, e: Expr, os: Reg)
    requires e.Fits(lw.nregs) && e.Strict? && e.kind.Property? && Ok(lw) && os < lw.next && LowerKey(lw, e, os).Some?
    ensures Closed(lw, LowerKey(lw, e, os).value.0)
    decreases e, 0
  {
    var (lw1, fs) := Temp(lw).value;
    var end := LowerKey(lw, e, os).value.0;
    if e.parts[1].Text? {
      ClosedByOp(lw, end);
    } else {
      LowerGrows(lw1, e.parts[1], None);
      LowerClosed(lw1, e.parts[1], None);
      var (lw2, ks) := Lower(lw1, e.parts[1], None).value;
      ClosedByOp(lw2, end);
      ClosedOn(lw1, lw2, end);
      forall i | |lw.ops| <= i < |end.ops| ensures ClosedAt(lw, end, i) {
        assert ClosedAt(lw1, end, i);
      }
    }
  }

  /** A stretch emitted in the middle of a longer one, which differs from it elsewhere only. */
  lemma ClosedPart(lw: Lw, a: Lw, b: Lw, end: Lw, i: nat)
    requires Closed(a, b) && |lw.ops| <= |a.ops| <= i < |b.ops| <= |end.ops| && end.ops[i] == b.ops[i]
    requires b.lists <= end.lists && b.max <= end.max
    ensures ClosedAt(lw, end, i)
  {
    hide Op.WithinRegs, Op.Targets;
    assert ClosedAt(a, b, i);
    WithinMore(b.ops[i], b.lists, b.max, end.lists, end.max);
  }

  lemma {:induction false} SettleClosed(lw: Lw, mid: Lw, t: Reg, dst: Option<Reg>)
    requires Ok(mid) && Grows(lw, mid) && Closed(lw, mid) && t < mid.next && Below(dst, mid.next)
    ensures Closed(lw, Settle(mid, t, dst).0)
  {
    if dst.Some? {
      MoveClosed(mid, dst.value, t);
      ClosedOn(lw, mid, Settle(mid, t, dst).0);
    }
  }

  lemma {:induction false} ShortcutClosed(lw: Lw, e: Expr, dst: Option<Reg>)
    requires e.Fits(lw.nregs) && e.Shortcut? && Ok(lw) && Below(dst, lw.next) && LowerShortcut(lw, e, dst).Some?
    ensures Closed(lw, LowerShortcut(lw, e, dst).value.0)
    decreases e, 0
  {
    hide Op.WithinRegs, Op.Targets;
    var (lw0, t) := Temp(lw).value;
    LowerGrows(lw0, e.x, Some(t));
    LowerClosed(lw0, e.x, Some(t));
    var (lw1, _) := Lower(lw0, e.x, Some(t)).value;
    var skip := Push(lw1, SkipIf(e.link, t, 0));
    LowerGrows(skip, e.y, Some(t));
    LowerClosed(skip, e.y, Some(t));
    var (lw2, _) := Lower(skip, e.y, Some(t)).value;
    var mid := lw2.(ops := lw2.ops[|lw1.ops| := SkipIf(e.link, t, |lw2.ops|)]);
    forall i | |lw.ops| <= i < |mid.ops| ensures ClosedAt(lw, mid, i) {
      if i < |lw1.ops| {
        ClosedPart(lw, lw0, lw1, mid, i);
      } else if i == |lw1.ops| {
        SkipClosed(lw, mid, e.link, t, i);
      } else {
        ClosedPart(lw, skip, lw2, mid, i);
      }
    }
    SettleClosed(lw, mid, t, dst);
  }

  lemma SkipClosed(lw: Lw, mid: Lw, link: Connective, t: Reg, i: nat)
    requires |lw.ops| <= i < |mid.ops| && mid.ops[i] == SkipIf(link, t, |mid.ops|) && t < mid.max
    ensures ClosedAt(lw, mid, i)
  {
  }

  lemma {:induction false} ChoiceClosed(lw: Lw, e: Expr, dst: Option<Reg>)
    requires e.Fits(lw.nregs) && e.Choice? && Ok(lw) && Below(dst, lw.next) && LowerChoice(lw, e, dst).Some?
    ensures Closed(lw, LowerChoice(lw, e, dst).value.0)
    decreases e, 0
  {
    hide Closed, Op.WithinRegs, Op.Targets, Lower, LowerAll;
    var (lw0, t) := Temp(lw).value;
    LowerGrows(lw0, e.test, None);
    LowerClosed(lw0, e.test, None);
    var (lw1, cs) := Lower(lw0, e.test, None).value;
    var test := Push(lw1, Jf(cs, 0));
    LowerGrows(test, e.x, Some(t));
    LowerClosed(test, e.x, Some(t));
    var (lw2, _) := Lower(test, e.x, Some(t)).value;
    var other := Push(lw2, J(0)).(ops := (lw2.ops + [J(0)])[|lw1.ops| := Jf(cs, |lw2.ops| + 1)]);
    LowerGrows(other, e.y, Some(t));
    LowerClosed(other, e.y, Some(t));
    var (lw3, _) := Lower(other, e.y, Some(t)).value;
    var mid := lw3.(ops := lw3.ops[|lw2.ops| := J(|lw3.ops|)]);
    ChoiceParts(lw, lw0, t, lw1, cs, test, lw2, other, lw3, mid);
    SettleClosed(lw, mid, t, dst);
  }

  lemma ChoiceParts(lw: Lw, lw0: Lw, t: Reg, lw1: Lw, cs: Reg, test: Lw, lw2: Lw, other: Lw, lw3: Lw, mid: Lw)
    requires Ok(lw) && Temp(lw) == Some((lw0, t)) && Ok(lw1) && Grows(lw0, lw1) && Closed(lw0, lw1) && cs < lw1.next
    requires test == Push(lw1, Jf(cs, 0)) && Ok(lw2) && Grows(test, lw2) && Closed(test, lw2)
    requires other == Push(lw2, J(0)).(ops := (lw2.ops + [J(0)])[|lw1.ops| := Jf(cs, |lw2.ops| + 1)])
    requires Ok(lw3) && Grows(other, lw3) && Closed(other, lw3) && mid == lw3.(ops := lw3.ops[|lw2.ops| := J(|lw3.ops|)])
    ensures Ok(mid) && Grows(lw, mid) && Closed(lw, mid)
  {
    hide Op.WithinRegs, Op.Targets;
    assert other.ops <= lw3.ops;
    forall i | |lw.ops| <= i < |mid.ops| ensures ClosedAt(lw, mid, i) {
      if i < |lw1.ops| {
        ClosedPart(lw, lw0, lw1, mid, i);
      } else if i == |lw1.ops| {
        assert mid.ops[i] == Jf(cs, |lw2.ops| + 1);
        JumpClosed(lw, mid, i);
      } else if i < |lw2.ops| {
        ClosedPart(lw, test, lw2, mid, i);
      } else if i == |lw2.ops| {
        JumpClosed(lw, mid, i);
      } else {
        ClosedPart(lw, other, lw3, mid, i);
      }
    }
  }

  lemma JumpClosed(lw: Lw, mid: Lw, i: nat)
    requires |lw.ops| <= i < |mid.ops|
    requires mid.ops[i].J? || (mid.ops[i].Jf? && mid.ops[i].cond < mid.max)
    requires i < mid.ops[i].to <= |mid.ops|
    ensures ClosedAt(lw, mid, i)
  {
  }
}
