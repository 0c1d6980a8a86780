/** What lowering promises, of an expression lowered on its own, and where it does not keep it: the
    length of a list is cut to sixteen bits. */
module LoweringCorrect {
  import opened Basics
  import opened Bytecode
  import opened Machine
  import opened Expressions
  import opened Lowering
  import opened Growth
  import opened Bounds
  import opened Segments
  import opened Atoms
  import opened LoweredRuns

  /** For k steps the run is inside the code and no program register has changed. */
  ghost predicate Undisturbed<V, W>(h: Host<V, W>, code: Code, regs: seq<V>, w: W, nregs: nat, k: nat)
    requires code.Fits(|regs|) && nregs <= |regs|
  {
    forall m: nat :: m < k ==> UndisturbedAt(Run(h, code, At(0, regs, w), m), |code.ops|, regs, nregs)
  }

  predicate UndisturbedAt<V(==), W>(s: State<V, W>, n: nat, regs: seq<V>, nregs: nat)
    requires nregs <= |regs|
  {
    s.At? && s.ip < n && |s.regs| == |regs| && s.regs[..nregs] == regs[..nregs]
  }

  lemma FreshCode(e: Expr, dst: Option<Reg>, nregs: nat, pcs: seq<(nat, nat)>, n: nat)
    requires nregs < NOSLOT && e.Fits(nregs) && Below(dst, nregs) && Lower(Fresh(nregs), e, dst).Some?
    requires Lower(Fresh(nregs), e, dst).value.0.max <= n
    ensures var lw := Lower(Fresh(nregs), e, dst).value.0;
            && Ready(Whole(lw.ops, lw.lists, pcs), lw.consts, Fresh(nregs), lw, n)
            && forall i :: 0 <= i < |lw.ops| ==> forall t :: t in lw.ops[i].Targets() ==> i < t <= |lw.ops|
  {
    hide Op.WithinRegs, Op.Targets;
    var lw := Lower(Fresh(nregs), e, dst).value.0;
    var code := Whole(lw.ops, lw.lists, pcs);
    LowerGrows(Fresh(nregs), e, dst);
    LowerClosed(Fresh(nregs), e, dst);
    forall i | 0 <= i < |code.ops| ensures code.ops[i].WithinRegs(code.lists, n) {
      assert ClosedAt(Fresh(nregs), lw, i);
      WithinMore(lw.ops[i], lw.lists, lw.max, lw.lists, n);
    }
    forall i | 0 <= i < |lw.ops| ensures forall t :: t in lw.ops[i].Targets() ==> i < t <= |lw.ops| {
      assert ClosedAt(Fresh(nregs), lw, i);
    }
    forall i | 0 <= i < |lw.ops| ensures EmittedAt(code, lw, i) {
    }
  }

  /** The code of an expression runs to its end and leaves the value in the register named, or raises
      the exception or the fault that evaluation ends in, list lengths being cut to sixteen bits. Until then no program register changes; in
      the end only `dst` does, and if an exception is raised not even that. */
  lemma ExpressionRuns<V, W>(h: Host<V, W>, e: Expr, dst: Option<Reg>, nregs: nat, pcs: seq<(nat, nat)>, regs: seq<V>, w: W)
    returns (k: nat, regs2: seq<V>)
    requires nregs < NOSLOT && e.Fits(nregs) && Below(dst, nregs) && Lower(Fresh(nregs), e, dst).Some?
    requires Lower(Fresh(nregs), e, dst).value.0.max <= |regs| && nregs <= |regs|
    ensures var (lw, s) := Lower(Fresh(nregs), e, dst).value;
            var code, hp := Whole(lw.ops, lw.lists, pcs), Linked(h, lw.consts);
            && code.Fits(|regs|) && |regs2| == |regs| && s < |regs|
            && Undisturbed(hp, code, regs, w, nregs, k)
            && var t := Run(hp, code, At(0, regs, w), k);
               match Eval(h, Cut, e, regs[..nregs], w)
               case Yields(v, w2) =>
                 t == At(|lw.ops|, regs2, w2) && regs2[s] == v && forall r :: 0 <= r < nregs && dst != Some(r) ==> regs2[r] == regs[r]
               case Raises(v, w2) => t == Depart(hp, pcs, Escapes(v, w2), regs2) && regs2[..nregs] == regs[..nregs]
               case Aborts(c, w2) => t == Ended(Fault(c), w2)
  {
    hide Eval, Lower, Op.WithinRegs, Step;
    var lw0 := Fresh(nregs);
    var (lw, s) := Lower(lw0, e, dst).value;
    var code, hp := Whole(lw.ops, lw.lists, pcs), Linked(h, lw.consts);
    FreshCode(e, dst, nregs, pcs, |regs|);
    LowerGrows(lw0, e, dst);
    k, regs2 := LowerRuns(h, code, lw.consts, lw0, e, dst, regs, w);
    forall m: nat | m < k ensures UndisturbedAt(Run(hp, code, At(0, regs, w), m), |code.ops|, regs, nregs) {
      assert Inside(Run(hp, code, At(0, regs, w), m), Span(lw0, lw), regs);
    }
  }

  // ----- Long lists -----

  function Registers(n: nat): (es: seq<Expr>)
    ensures |es| == n && forall i :: 0 <= i < n ==> es[i] == Register(0)
  {
    seq(n, _ => Register(0))
  }

  function Zeros(n: nat): (s: seq<Reg>)
    ensures |s| == n && forall i :: 0 <= i < n ==> s[i] == 0
  {
    seq(n, _ => 0)
  }

  /** Registers are operands as they are. */
  lemma {:induction false} RegistersStay(lw: Lw, es: seq<Expr>)
    requires lw.nregs > 0 && forall i :: 0 <= i < |es| ==> es[i] == Register(0)
    ensures LowerAll(lw, es) == Some((lw, Zeros(|es|)))
  {
    hide LowerStrict, LowerShortcut, LowerChoice, LowerMethodCall;
    if es == [] {
      assert Zeros(0) == [];
    } else {
      RegistersStay(lw, es[1..]);
      assert [0] + Zeros(|es| - 1) == Zeros(|es|);
    }
  }

  /** A list of n registers is built by one op, which takes the first n modulo 2^16 of them: all, if
      and only if n fits sixteen bits. */
  lemma LongListsAreCut(n: nat)
    ensures Strict(ListOf, Registers(n)).Fits(1)
    ensures Lower(Fresh(1), Strict(ListOf, Registers(n)), None) ==
            Some((Lw(1, [Array(1, 0, Low16(n))], Zeros(n), [], 2, 2), 1))
    ensures Low16(n) == n <==> Fits16(n)
  {
    hide Conclude, LowerAll, LowerMethodCall, LowerShortcut, LowerChoice;
    var es := Registers(n);
    assert Operands(ListOf, es) == es;
    RegistersStay(Fresh(1), es);
    ListConcludes(es, Zeros(n));
  }

  lemma ListConcludes(es: seq<Expr>, slots: seq<Reg>)
    requires |es| == |slots|
    ensures Conclude(Fresh(1), ListOf, es, slots, None) == Some((Lw(1, [Array(1, 0, Low16(|slots|))], slots, [], 2, 2), 1))
  {
    var op := Array(1, 0, Low16(|slots|));
    assert [] + slots == slots && [] + [op] == [op];
  }
}
