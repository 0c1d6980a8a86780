/** What a run through lowered code has to do, and that it does so for the trees that are one op. */
module Atoms {
  import opened Basics
  import opened Numbers
  import opened Bytecode
  import opened Machine
  import opened Expressions
  import opened Lowering
  import opened Growth
  import opened Segments

  /** What was lowered from lw to lw2 is in the code, its constants in the pool, and its registers
      among the first n. */
  ghost predicate Ready(code: Code, pool: seq<nat>, lw: Lw, lw2: Lw, n: nat) {
    Ok(lw) && Grows(lw, lw2) && lw2.max <= n && code.Fits(n) && Emitted(code, lw, lw2) && lw2.consts <= pool
  }

  function Span(lw: Lw, lw2: Lw): Stretch {
    Stretch(|lw.ops|, |lw2.ops|, lw.next)
  }

  /** The run through what was emitted from lw to lw2 does what `out` says, with the value in s. */
  ghost predicate Computes<V, W>(h: Host<V, W>, code: Code, pool: seq<nat>, lw: Lw, lw2: Lw, regs: seq<V>, w: W,
                                 k: nat, regs2: seq<V>, s: Reg, dst: Option<Reg>, out: Effect<V, V, W>)
    requires code.Fits(|regs|)
  {
    && Arrives(Linked(h, pool), code, Span(lw, lw2), |lw.ops|, regs, w, k, regs2, |lw2.ops|, dst, out)
    && (out.Yields? ==> s < |regs2| && regs2[s] == out.r)
  }

  // ----- One op -----

  lemma LastOp(code: Code, lw: Lw, lw2: Lw, op: Op, n: nat)
    requires Emitted(code, lw, lw2) && |lw2.ops| == |lw.ops| + 1 && lw2.ops[|lw.ops|] == op && code.Fits(n)
    ensures code.ops[|lw.ops|] == op && code.keep[|lw.ops|] && op.WithinRegs(code.lists, n)
  {
    assert EmittedAt(code, lw2, |lw.ops|);
  }

  lemma PlacedIsBare(op: Op, d: Reg, pool: seq<nat>)
    requires IsLeaf(op) && !op.Fail?
    ensures Bare(Placed(op, d)) == op && Resolve(op, pool) == op
    ensures Placed(op, d).HasDest() && Placed(op, d).d == d
    ensures Placed(op, d).Pure() == op.Pure() && Placed(op, d).Safe() == op.Safe()
  {
  }

  lemma PlacedIsAsked<V, W>(h: Host<V, W>, op: Op, d: Reg, w: W)
    requires IsLeaf(op) && !op.Fail?
    ensures Arity(Placed(op, d)) == 0 && Perform(h, Placed(op, d), [], w) == Ask(h, Placed(op, d), [], w)
  {
    hide Ask, Decide, Op.Reads;
  }

  lemma PlacedPerforms<V, W>(h: Host<V, W>, pool: seq<nat>, op: Op, d: Reg, w: W)
    requires IsLeaf(op)
    ensures Arity(Placed(op, d)) == 0
    ensures Perform(Linked(h, pool), Placed(op, d), [], w) == FromEffect(LeafValue(h, op, w))
  {
    if !op.Fail? {
      hide Bare, Placed, Perform, Resolve, Arity;
      PlacedIsBare(op, d, pool);
      PlacedIsAsked(Linked(h, pool), op, d, w);
    }
  }

  lemma PlacedReads(op: Op, d: Reg, lists: seq<Reg>)
    requires IsLeaf(op) || op.Num? || op.Const? || op.Name?
    ensures Placed(op, d).ListFits(lists) && Placed(op, d).Reads(lists) == []
  {
  }

  /** An op that reads no register. */
  lemma EmitRuns<V, W>(h: Host<V, W>, code: Code, pool: seq<nat>, lw: Lw, op: Op, dst: Option<Reg>, regs: seq<V>, w: W,
                       eff: Effect<V, V, W>) returns (regs2: seq<V>)
    requires IsLeaf(op) || op.Num? || op.Const? || op.Name?
    requires Emit(lw, op, dst).Some? && Below(dst, lw.next)
    requires Ready(code, pool, lw, Emit(lw, op, dst).value.0, |regs|)
    requires eff.Yields? ==> !op.Fail?
    requires var s := Emit(lw, op, dst).value.1;
             Arity(Placed(op, s)) == 0 && Perform(Linked(h, pool), Placed(op, s), [], w) == FromEffect(eff)
    ensures var (lw2, s) := Emit(lw, op, dst).value; Computes(h, code, pool, lw, lw2, regs, w, 1, regs2, s, dst, eff)
  {
    hide Perform, Op.Reads, Arity, Arrives;
    var (lw2, s) := Emit(lw, op, dst).value;
    LastOp(code, lw, lw2, Placed(op, s), |regs|);
    PlacedReads(op, s, code.lists);
    assert Fetch(regs, []) == [];
    if !op.Fail? {
      PlacedDest(op, s);
    }
    regs2 := StepArrives(Linked(h, pool), code, Span(lw, lw2), |lw.ops|, regs, w, dst, eff);
  }

  lemma PlacedDest(op: Op, d: Reg)
    requires (IsLeaf(op) && !op.Fail?) || op.Num? || op.Const? || op.Name?
    ensures Placed(op, d).HasDest() && Placed(op, d).d == d
  {
  }

  /** The trees without parts. */
  lemma AtomRuns<V, W>(h: Host<V, W>, code: Code, pool: seq<nat>, lw: Lw, e: Expr, dst: Option<Reg>, regs: seq<V>, w: W)
    returns (k: nat, regs2: seq<V>)
    requires e.Fits(lw.nregs) && Lower(lw, e, dst).Some? && Below(dst, lw.next)
    requires !e.Strict? && !e.Shortcut? && !e.Choice? && lw.nregs <= |regs|
    requires Ready(code, pool, lw, Lower(lw, e, dst).value.0, |regs|)
    ensures var (lw2, s) := Lower(lw, e, dst).value;
            Computes(h, code, pool, lw, lw2, regs, w, k, regs2, s, dst, Eval(h, Cut, e, regs[..lw.nregs], w))
  {
    hide Perform, Op.Reads, Arity, Arrives, Emit, Ready, Emitted, Computes;
    var out := Eval(h, Cut, e, regs[..lw.nregs], w);
    k := 1;
    match e
    case Register(r) => k, regs2 := RegisterRuns(h, code, pool, lw, e, dst, regs, w);
    case Literal(n) =>
      NumPerforms(h, pool, n, Emit(lw, Num(0, n), dst).value.1, w);
      regs2 := EmitRuns(h, code, pool, lw, Num(0, n), dst, regs, w, out);
    case Constant(c) => regs2 := ConstRuns(h, code, pool, lw, c, dst, regs, w, out);
    case Text(c) => regs2 := ConstRuns(h, code, pool, lw, c, dst, regs, w, out);
    case NameOf(c) => regs2 := NameRuns(h, code, pool, lw, c, dst, regs, w, out);
    case Leaf(op) =>
      PlacedPerforms(h, pool, op, Emit(lw, op, dst).value.1, w);
      regs2 := EmitRuns(h, code, pool, lw, op, dst, regs, w, out);
  }

  lemma NumPerforms<V, W>(h: Host<V, W>, pool: seq<nat>, n: Number, d: Reg, w: W)
    ensures Arity(Placed(Num(0, n), d)) == 0
    ensures Perform(Linked(h, pool), Placed(Num(0, n), d), [], w) == FromEffect(Yields(h.num(n), w))
  {
  }

  lemma ConstPerforms<V, W>(h: Host<V, W>, pool: seq<nat>, i: nat, d: Reg, w: W)
    requires i < |pool|
    ensures Arity(Placed(Const(0, i), d)) == 0
    ensures Perform(Linked(h, pool), Placed(Const(0, i), d), [], w) == FromEffect(Yields(h.load(Const(0, pool[i]), w), w))
  {
    assert Bare(Placed(Const(0, i), d)) == Const(0, i);
    assert Resolve(Const(0, i), pool) == Const(0, pool[i]);
  }

  lemma NamePerforms<V, W>(h: Host<V, W>, pool: seq<nat>, i: nat, d: Reg, w: W)
    requires i < |pool|
    ensures Arity(Placed(Name(0, i), d)) == 0
    ensures Perform(Linked(h, pool), Placed(Name(0, i), d), [], w) == FromEffect(h.act(Name(0, pool[i]), [], w))
  {
    assert Bare(Placed(Name(0, i), d)) == Name(0, i);
    assert Resolve(Name(0, i), pool) == Name(0, pool[i]);
  }

  lemma RegisterRuns<V, W>(h: Host<V, W>, code: Code, pool: seq<nat>, lw: Lw, e: Expr, dst: Option<Reg>, regs: seq<V>, w: W)
    returns (k: nat, regs2: seq<V>)
    requires e.Register? && e.r < lw.nregs <= |regs| && Below(dst, lw.next)
    requires Ready(code, pool, lw, Lower(lw, e, dst).value.0, |regs|)
    ensures var (lw2, s) := Lower(lw, e, dst).value;
            Computes(h, code, pool, lw, lw2, regs, w, k, regs2, s, dst, Yields(regs[e.r], w))
  {
    var (lw2, s) := Lower(lw, e, dst).value;
    if lw2 == lw {
      k, regs2 := 0, regs;
      Stays(Linked(h, pool), code, Span(lw, lw2), |lw.ops|, regs, w, Yields(regs[e.r], w));
    } else {
      k := 1;
      regs2 := MoveRuns(h, code, pool, lw, lw2, s, e.r, regs, w);
    }
  }

  lemma MoveRuns<V, W>(h: Host<V, W>, code: Code, pool: seq<nat>, lw: Lw, lw2: Lw, d: Reg, s: Reg, regs: seq<V>, w: W)
    returns (regs2: seq<V>)
    requires lw2 == Push(lw, Move(d, s)) && Ready(code, pool, lw, lw2, |regs|) && s < |regs|
    ensures Computes(h, code, pool, lw, lw2, regs, w, 1, regs2, d, Some(d), Yields(regs[s], w))
  {
    hide Arrives;
    LastOp(code, lw, lw2, Move(d, s), |regs|);
    assert Fetch(regs, [s]) == [regs[s]];
    regs2 := StepArrives(Linked(h, pool), code, Span(lw, lw2), |lw.ops|, regs, w, Some(d), Yields(regs[s], w));
  }

  lemma ConstRuns<V, W>(h: Host<V, W>, code: Code, pool: seq<nat>, lw: Lw, c: nat, dst: Option<Reg>, regs: seq<V>, w: W,
                        eff: Effect<V, V, W>) returns (regs2: seq<V>)
    requires eff == Yields(h.load(Const(0, c), w), w) && Below(dst, lw.next)
    requires Emit(Konst(lw, c), Const(0, |lw.consts|), dst).Some?
    requires Ready(code, pool, lw, Emit(Konst(lw, c), Const(0, |lw.consts|), dst).value.0, |regs|)
    ensures var (lw2, s) := Emit(Konst(lw, c), Const(0, |lw.consts|), dst).value;
            Computes(h, code, pool, lw, lw2, regs, w, 1, regs2, s, dst, eff)
  {
    hide Arrives, Perform;
    var op := Const(0, |lw.consts|);
    var (lw2, s) := Emit(Konst(lw, c), op, dst).value;
    assert lw2.consts[|lw.consts|] == c == pool[|lw.consts|];
    EmitGrows(Konst(lw, c), op, dst);
    ConstPerforms(h, pool, |lw.consts|, s, w);
    regs2 := EmitRuns(h, code, pool, Konst(lw, c), op, dst, regs, w, eff);
  }

  lemma NameRuns<V, W>(h: Host<V, W>, code: Code, pool: seq<nat>, lw: Lw, c: nat, dst: Option<Reg>, regs: seq<V>, w: W,
                       eff: Effect<V, V, W>) returns (regs2: seq<V>)
    requires eff == h.act(Name(0, c), [], w) && Below(dst, lw.next)
    requires Emit(Konst(lw, c), Name(0, |lw.consts|), dst).Some?
    requires Ready(code, pool, lw, Emit(Konst(lw, c), Name(0, |lw.consts|), dst).value.0, |regs|)
    ensures var (lw2, s) := Emit(Konst(lw, c), Name(0, |lw.consts|), dst).value;
            Computes(h, code, pool, lw, lw2, regs, w, 1, regs2, s, dst, eff)
  {
    hide Arrives, Perform;
    var op := Name(0, |lw.consts|);
    var (lw2, s) := Emit(Konst(lw, c), op, dst).value;
    assert lw2.consts[|lw.consts|] == c == pool[|lw.consts|];
    EmitGrows(Konst(lw, c), op, dst);
    NamePerforms(h, pool, |lw.consts|, s, w);
    regs2 := EmitRuns(h, code, pool, Konst(lw, c), op, dst, regs, w, eff);
  }
}
