/** Runs through a stretch of emitted code: where they stay, what they leave alone, and where they
    come out. */
module Segments {
  import opened Basics
  import opened Bytecode
  import opened Machine
  import opened Expressions
  import opened Lowering

  // ----- The constant pool -----

  /** An op that names a constant by its place in the pool, with the constant itself in its place. */
  function Resolve(op: Op, pool: seq<nat>): Op {
    match op
    case Const(d, c) => if c < |pool| then Const(d, pool[c]) else op
    case Name(d, c) => if c < |pool| then Name(d, pool[c]) else op
    case MemberK(d, o, c) => if c < |pool| then MemberK(d, o, pool[c]) else op
    case _ => op
  }

  /** The host as the ops see it that go through a constant pool. */
  function Linked<V, W>(h: Host<V, W>, pool: seq<nat>): Host<V, W> {
    h.(load := (op, w) => h.load(Resolve(op, pool), w), act := (op, vs, w) => h.act(Resolve(op, pool), vs, w))
  }

  /** What was emitted between lw and lw2 is in the code. */
  ghost predicate Emitted(code: Code, lw: Lw, lw2: Lw) {
    && |lw.ops| <= |lw2.ops| <= |code.ops| == |code.keep| && lw2.lists <= code.lists
    && forall i :: |lw.ops| <= i < |lw2.ops| ==> EmittedAt(code, lw2, i)
  }

  predicate EmittedAt(code: Code, lw2: Lw, i: nat)
    requires i < |lw2.ops| <= |code.ops| == |code.keep|
  {
    code.ops[i] == lw2.ops[i] && code.keep[i]
  }

  // ----- Stretches -----

  /** Ops from `lo` up to `hi`, and the registers below `low` that a run through them leaves alone. */
  datatype Stretch = Stretch(lo: nat, hi: nat, low: nat)

  predicate Inner(a: Stretch, b: Stretch) {
    b.lo <= a.lo && a.hi <= b.hi && b.low <= a.low
  }

  /** The registers below `low` have not changed, except perhaps `but`. */
  ghost predicate Same<V>(a: seq<V>, b: seq<V>, low: nat, but: Option<Reg>) {
    |a| == |b| && forall r :: 0 <= r < low && r < |a| && but != Some(r) ==> a[r] == b[r]
  }

  ghost predicate Inside<V, W>(s: State<V, W>, st: Stretch, regs: seq<V>) {
    s.At? && st.lo <= s.ip < st.hi && Same(regs, s.regs, st.low, None)
  }

  /** For k steps the run from s has been inside the stretch and has changed no register below it. */
  ghost predicate Quiet<V, W>(h: Host<V, W>, code: Code, s: State<V, W>, k: nat, st: Stretch, regs: seq<V>)
    requires s.At? ==> code.Fits(|s.regs|)
  {
    forall m: nat :: m < k ==> Inside(Run(h, code, s, m), st, regs)
  }

  /** The run from ip i takes k steps inside the stretch and then, as `out` says, arrives at ip j with
      no register below the stretch changed but `dst`; or an exception departs, with none of them
      changed; or the machine faults. */
  ghost predicate Arrives<R, V, W>(h: Host<V, W>, code: Code, st: Stretch, i: nat, regs: seq<V>, w: W,
                                   k: nat, regs2: seq<V>, j: nat, dst: Option<Reg>, out: Effect<R, V, W>)
    requires code.Fits(|regs|)
  {
    && |regs2| == |regs|
    && Quiet(h, code, At(i, regs, w), k, st, regs)
    && var t := Run(h, code, At(i, regs, w), k);
       match out
       case Yields(_, w2) => t == At(j, regs2, w2) && Same(regs, regs2, st.low, dst)
       case Raises(v, w2) => t == Depart(h, code.pcs, Escapes(v, w2), regs2) && Same(regs, regs2, st.low, None)
       case Aborts(c, w2) => t == Ended(Fault(c), w2)
  }

  lemma Stays<R, V, W>(h: Host<V, W>, code: Code, st: Stretch, i: nat, regs: seq<V>, w: W, out: Effect<R, V, W>)
    requires code.Fits(|regs|) && out.Yields? && out.w == w
    ensures Arrives(h, code, st, i, regs, w, 0, regs, i, None, out)
  {
  }

  /** Two runs end to end. */
  lemma Joins<Q, R, V, W>(h: Host<V, W>, code: Code, st: Stretch, i: nat, regs: seq<V>, w: W,
                          st1: Stretch, k1: nat, regs1: seq<V>, j1: nat, dst1: Option<Reg>, out1: Effect<Q, V, W>,
                          st2: Stretch, k2: nat, regs2: seq<V>, j2: nat, dst2: Option<Reg>, out2: Effect<R, V, W>)
    requires code.Fits(|regs|) && out1.Yields? && Inner(st1, st) && Inner(st2, st)
    requires dst1.Some? ==> st.low <= dst1.value
    requires Arrives(h, code, st1, i, regs, w, k1, regs1, j1, dst1, out1)
    requires Arrives(h, code, st2, j1, regs1, out1.w, k2, regs2, j2, dst2, out2)
    ensures Arrives(h, code, st, i, regs, w, k1 + k2, regs2, j2, dst2, out2)
  {
    var s := At(i, regs, w);
    RunAppends(h, code, s, k1, k2);
    forall m: nat | m < k1 + k2 ensures Inside(Run(h, code, s, m), st, regs) {
      if m < k1 {
        assert Inside(Run(h, code, s, m), st1, regs);
      } else {
        RunAppends(h, code, s, k1, m - k1);
        assert Inside(Run(h, code, At(j1, regs1, out1.w), m - k1), st2, regs1);
      }
    }
  }

  /** A run that fails in a part of a stretch fails in the whole. */
  lemma Fails<Q, R, V, W>(h: Host<V, W>, code: Code, st: Stretch, i: nat, regs: seq<V>, w: W,
                          st1: Stretch, k: nat, regs1: seq<V>, j1: nat, dst1: Option<Reg>, out1: Effect<Q, V, W>,
                          j: nat, dst: Option<Reg>, out: Effect<R, V, W>)
    requires code.Fits(|regs|) && !out1.Yields? && out == Failed(out1) && Inner(st1, st)
    requires Arrives(h, code, st1, i, regs, w, k, regs1, j1, dst1, out1)
    ensures Arrives(h, code, st, i, regs, w, k, regs1, j, dst, out)
  {
    forall m: nat | m < k ensures Inside(Run(h, code, At(i, regs, w), m), st, regs) {
      assert Inside(Run(h, code, At(i, regs, w), m), st1, regs);
    }
  }

  /** A run that gets through a part of a stretch gets through the whole. */
  lemma Passes<Q, R, V, W>(h: Host<V, W>, code: Code, st: Stretch, i: nat, regs: seq<V>, w: W,
                           st1: Stretch, k: nat, regs1: seq<V>, j: nat, dst1: Option<Reg>, out1: Effect<Q, V, W>,
                           dst: Option<Reg>, out: Effect<R, V, W>)
    requires code.Fits(|regs|) && out1.Yields? && out.Yields? && out.w == out1.w && Inner(st1, st)
    requires dst1 == dst || (dst1.Some? && st.low <= dst1.value)
    requires Arrives(h, code, st1, i, regs, w, k, regs1, j, dst1, out1)
    ensures Arrives(h, code, st, i, regs, w, k, regs1, j, dst, out)
  {
    forall m: nat | m < k ensures Inside(Run(h, code, At(i, regs, w), m), st, regs) {
      assert Inside(Run(h, code, At(i, regs, w), m), st1, regs);
    }
  }

  /** One op that yields a value or fails. */
  lemma StepArrives<V, W>(h: Host<V, W>, code: Code, st: Stretch, i: nat, regs: seq<V>, w: W, dst: Option<Reg>, eff: Effect<V, V, W>)
    returns (regs2: seq<V>)
    requires code.Fits(|regs|) && st.lo <= i < st.hi <= |code.ops| && code.keep[i]
    requires code.ops[i].WithinRegs(code.lists, |regs|)
    requires eff.Yields? ==> code.ops[i].HasDest() && (dst == Some(code.ops[i].d) || st.low <= code.ops[i].d)
    requires |Fetch(regs, code.ops[i].Reads(code.lists))| >= Arity(code.ops[i])
    requires Perform(h, code.ops[i], Fetch(regs, code.ops[i].Reads(code.lists)), w) == FromEffect(eff)
    ensures Arrives(h, code, st, i, regs, w, 1, regs2, i + 1, dst, eff)
    ensures eff.Yields? ==> code.ops[i].d < |regs2| && regs2[code.ops[i].d] == eff.r
  {
    hide Perform, Op.Reads;
    StepIsNext(h, code, i, regs, w);
    regs2 := if eff.Yields? then regs[code.ops[i].d := eff.r] else regs;
    OneStep(h, code, At(i, regs, w));
    OnlyStep(h, code, st, i, regs, w);
  }

  lemma OneStep<V, W>(h: Host<V, W>, code: Code, s: State<V, W>)
    requires s.At? ==> code.Fits(|s.regs|)
    ensures Run(h, code, s, 1) == Step(h, code, s) && Run(h, code, s, 0) == s
  {
    hide Perform, Op.Reads;
    assert Run(h, code, Step(h, code, s), 0) == Step(h, code, s);
  }

  lemma OnlyStep<V, W>(h: Host<V, W>, code: Code, st: Stretch, i: nat, regs: seq<V>, w: W)
    requires code.Fits(|regs|) && st.lo <= i < st.hi
    ensures Quiet(h, code, At(i, regs, w), 1, st, regs)
  {
    hide Step;
    forall m: nat | m < 1 ensures Inside(Run(h, code, At(i, regs, w), m), st, regs) {
      assert m == 0;
    }
  }

  /** One jump whose test comes out as b. */
  lemma JumpArrives<R, V, W>(h: Host<V, W>, code: Code, st: Stretch, i: nat, regs: seq<V>, w: W, b: bool, out: Effect<R, V, W>)
    requires code.Fits(|regs|) && st.lo <= i < st.hi <= |code.ops| && code.keep[i] && code.ops[i].Jumps()
    requires code.ops[i].WithinRegs(code.lists, |regs|)
    requires |Fetch(regs, code.ops[i].Reads(code.lists))| >= Arity(code.ops[i])
    requires Perform(h, code.ops[i], Fetch(regs, code.ops[i].Reads(code.lists)), w) == Test(b, w)
    requires out.Yields? && out.w == w
    ensures Arrives(h, code, st, i, regs, w, 1, regs, code.ops[i].Successor(b, i), None, out)
  {
    hide Perform, Op.Reads;
    StepIsNext(h, code, i, regs, w);
    OneStep(h, code, At(i, regs, w));
    OnlyStep(h, code, st, i, regs, w);
  }
}
