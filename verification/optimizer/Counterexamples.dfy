/** Small programs on which the optimizer is wrong: why its theorem has hypotheses. */
module Counterexamples {
  import opened Numbers
  import opened Basics
  import opened Bytecode
  import opened Machine
  import opened Liveness
  import opened LiveRuns
  import opened Fusion
  import opened FusionRuns

  // ----- A handler sees a store that was dropped -----

  // r0 := 1; r0 := r1(); return r0, and a handler at address 7 that returns r0.

  function ExampleOps(): seq<Op> {
    [Num(0, ONE), Call(0, 1, NOSLOT, 0, 0), Ret(0), Ret(0)]
  }

  function Example(firstKept: bool): Code {
    Code(ExampleOps(), [], [(7, 3)], [firstKept, true, true, true])
  }

  const EXAMPLE_LIVE: seq<set<Reg>> := [{1}, {1}, {0}, {0}, {}, {}]

  const EXAMPLE_NODES: seq<Node> := [
    Node({}, {0}, NONE, NONE, true, false, true),
    Node({1}, {0}, NONE, NONE, false, true, true),
    Node({0}, {}, NONE, NONE, false, true, false),
    Node({0}, {}, NONE, NONE, false, true, false)]

  lemma ExampleSolved()
    ensures Solution(EXAMPLE_NODES, [(7, 3)], EXAMPLE_LIVE)
    ensures KeepsLive(EXAMPLE_NODES, [(7, 3)], EXAMPLE_LIVE, [false, true, true, true])
  {
    hide Out;
    assert HandlerLive([(7, 3)], EXAMPLE_LIVE, 4) == {0};
    ExampleOuts();
  }

  lemma ExampleOuts()
    ensures Out(EXAMPLE_NODES, EXAMPLE_LIVE, {0}, 0) == {1}
    ensures Out(EXAMPLE_NODES, EXAMPLE_LIVE, {0}, 1) == {0}
    ensures Out(EXAMPLE_NODES, EXAMPLE_LIVE, {0}, 2) == {0}
    ensures Out(EXAMPLE_NODES, EXAMPLE_LIVE, {0}, 3) == {0}
  {
  }

  lemma ExampleNodes()
    ensures forall op :: op in ExampleOps() ==> op.ListFits([])
    ensures NodesOf(ExampleOps(), []) == EXAMPLE_NODES
  {
    NodeOfNum(0, ONE);
    NodeOfCall();
    NodeOfRet(0);
  }

  lemma NodeOfNum(d: Reg, n: Number)
    requires d < TRACKED
    ensures NodeOf(Num(d, n), []) == Node({}, {d}, NONE, NONE, true, false, true)
  {
  }

  lemma NodeOfCall()
    ensures NodeOf(Call(0, 1, NOSLOT, 0, 0), []) == Node({1}, {0}, NONE, NONE, false, true, true)
  {
    var op := Call(0, 1, NOSLOT, 0, 0);
    assert op.Reads([]) == [1];
    assert op.Uses([]) == {1};
  }

  lemma NodeOfRet(v: Reg)
    requires v < TRACKED
    ensures NodeOf(Ret(v), []) == Node({v}, {}, NONE, NONE, false, true, false)
  {
  }

  lemma ExampleMasked()
    ensures Masked(Example(true), Example(false), EXAMPLE_LIVE)
  {
    hide Solution, KeepsLive, NodeOf;
    ExampleNodes();
    ExampleSolved();
    assert forall i :: 0 <= i < 4 ==> ExampleOps()[i] in ExampleOps();
  }

  lemma ExampleFits(firstKept: bool)
    ensures Example(firstKept).Fits(2)
  {
    hide Op.WithinRegs;
    NumWithin(0, ONE, 2);
    CallWithin();
    RetWithin(0, 2);
  }

  lemma NumWithin(d: Reg, n: Number, nregs: nat)
    requires d < nregs
    ensures Num(d, n).WithinRegs([], nregs)
  {
  }

  lemma CallWithin()
    ensures Call(0, 1, NOSLOT, 0, 0).WithinRegs([], 2)
  {
    assert Call(0, 1, NOSLOT, 0, 0).Reads([]) == [1];
  }

  lemma RetWithin(v: Reg, nregs: nat)
    requires v < nregs
    ensures Ret(v).WithinRegs([], nregs)
  {
  }

  lemma ExampleStarts(firstKept: bool)
    ensures Example(firstKept).Fits(2)
    ensures Step(Throwing(7), Example(firstKept), At(0, [5, 6], 0)) == At(1, if firstKept then [1, 6] else [5, 6], 0)
  {
    ExampleFits(firstKept);
    assert [5, 6][0 := 1] == [1, 6];
  }

  lemma ExampleReturns(firstKept: bool, x: int)
    ensures Example(firstKept).Fits(2)
    ensures Step(Throwing(7), Example(firstKept), At(3, [x, 6], 0)) == Ended(Returned(x), 0)
  {
    ExampleFits(firstKept);
  }

  lemma ExampleRuns(firstKept: bool)
    ensures Example(firstKept).Fits(2)
    ensures Run(Throwing(7), Example(firstKept), At(0, [5, 6], 0), 3) == Ended(Returned(if firstKept then 1 else 5), 0)
  {
    hide Step, Example, Throwing;
    var code, h, x := Example(firstKept), Throwing(7), if firstKept then 1 else 5;
    ExampleStarts(firstKept);
    ExampleThrows(firstKept, x);
    ExampleReturns(firstKept, x);
    RunOfThree(h, code, At(0, [5, 6], 0));
  }

  lemma ExampleThrows(firstKept: bool, x: int)
    ensures Example(firstKept).Fits(2)
    ensures Step(Throwing(7), Example(firstKept), At(1, [x, 6], 0)) == At(3, [x, 6], 0)
  {
    hide Step;
    ExampleFits(firstKept);
    assert FindPc([(7, 3)], 7) == Some(3);
    ThrowingSteps(Example(firstKept), 1, [x, 6], 7);
  }

  /** Without the hypothesis the elimination is wrong: the first store is dropped, because the
      call's own destination hides that the handler can still see it. */
  lemma HandlerHypothesisNeeded()
    ensures Masked(Example(true), Example(false), EXAMPLE_LIVE)
    ensures Example(true).Fits(2) && Example(false).Fits(2)
    ensures Run(Throwing(7), Example(true), At(0, [5, 6], 0), 3) != Run(Throwing(7), Example(false), At(0, [5, 6], 0), 3)
  {
    ExampleMasked();
    ExampleRuns(true);
    ExampleRuns(false);
  }

  // ----- A side exit sees an array that was not built -----

  // r1 := []; r2 := [r3, r1]; if !r3 goto 5; r0 := apply(r3, r3, r2); return r0; 5: return r1

  function ExitCode(): Code {
    Code([Array(1, 0, 0), Array(2, 0, 2), Jf(3, 5), Apply(0, 3, 3, 2), Ret(0), Ret(1)], [3, 1], [],
         [true, true, true, true, true, true])
  }

  const EXIT_LIVE: seq<set<Reg>> := [{3}, {3, 1}, {3, 2, 1}, {3, 2}, {0}, {1}, {}, {}]

  const EXIT_TARGET: seq<bool> := [true, false, false, false, false, true, false]

  const EXIT_SITE: Site := Site(0, 1, 3)

  /** A host where nothing is true and every array is 7. */
  function Falsy(): Host<int, int> {
    Host(n => 1, v => false, v => false, (o, w) => 0, l => 7, (o, l, w) => (0, w),
         (o, l, w) => Yields(0, w), (u, v, w) => Yields(0, w), (b, x, y, w) => Yields(0, w),
         (o, v, w) => Ends(Returned(v), w), (v, w) => Escapes(v, w))
  }

  lemma ExitFits()
    ensures ExitCode().Fits(4)
  {
    assert ExitCode().ops[1].Reads([3, 1]) == [3, 1];
    assert ExitCode().ops[3].Reads([3, 1]) == [3, 3, 2];
  }

  lemma ExitListsFit()
    ensures forall k :: 0 <= k < |ExitCode().ops| ==> ExitCode().ops[k].ListFits(ExitCode().lists)
  {
  }

  lemma ExitDefs()
    ensures DefBefore(ExitCode().ops, ExitCode().keep, EXIT_TARGET, 3, 2) == Some(1)
    ensures DefBefore(ExitCode().ops, ExitCode().keep, EXIT_TARGET, 1, 1) == Some(0)
  {
    assert DefBefore(ExitCode().ops, ExitCode().keep, EXIT_TARGET, 2, 2) == Some(1);
  }

  lemma ExitMarked()
    ensures MarksTargets(ExitCode().ops, ExitCode().pcs, 0, EXIT_TARGET)
  {
    assert forall i, t :: 0 <= i < 6 && t in ExitCode().ops[i].Targets() ==> t == 5;
  }

  lemma ExitHarmless()
    ensures Shaped(ExitCode(), EXIT_SITE) && ExitCode().ops[2].ListFits([3, 1])
    ensures Harmless(ExitCode(), EXIT_SITE, 2)
  {
    assert ExitCode().ops[2].Reads([3, 1]) == [3];
  }

  lemma ExitFusible()
    ensures forall k :: 0 <= k < |ExitCode().ops| ==> ExitCode().ops[k].ListFits(ExitCode().lists)
    ensures Fusible(ExitCode(), EXIT_TARGET, EXIT_LIVE[4], EXIT_SITE)
  {
    hide DefBefore, Harmless, Op.ListFits, Op.Uses;
    ExitListsFit();
    ExitDefs();
    ExitHarmless();
    assert Elements(ExitCode(), EXIT_SITE) == [];
  }

  const EXIT_NODES: seq<Node> := [
    Node({}, {1}, NONE, NONE, true, false, true),
    Node({3, 1}, {2}, NONE, NONE, true, false, true),
    Node({3}, {}, 5, NONE, false, false, true),
    Node({3, 2}, {0}, NONE, NONE, false, true, true),
    Node({0}, {}, NONE, NONE, false, true, false),
    Node({1}, {}, NONE, NONE, false, true, false)]

  lemma ExitNodes()
    ensures forall k :: 0 <= k < |ExitCode().ops| ==> ExitCode().ops[k].ListFits(ExitCode().lists)
    ensures NodesOf(ExitCode().ops, ExitCode().lists) == EXIT_NODES
  {
    hide NodeOf, Op.ListFits;
    forall k | 0 <= k < 6
      ensures ExitCode().ops[k].ListFits(ExitCode().lists) && NodeOf(ExitCode().ops[k], ExitCode().lists) == EXIT_NODES[k] {
      ExitNode(k);
    }
  }

  lemma ExitNode(i: nat)
    requires i < 6
    ensures ExitCode().ops[i].ListFits(ExitCode().lists) && NodeOf(ExitCode().ops[i], ExitCode().lists) == EXIT_NODES[i]
  {
    var op := ExitCode().ops[i];
    assert op.Reads([3, 1]) == [[], [3, 1], [3], [3, 3, 2], [0], [1]][i];
    assert op.Uses([3, 1]) == [{}, {3, 1}, {3}, {3, 2}, {0}, {1}][i];
  }

  lemma ExitSolved()
    ensures Solution(EXIT_NODES, [], EXIT_LIVE) && KeepsLive(EXIT_NODES, [], EXIT_LIVE, [true, true, true, true, true, true])
  {
    hide Out;
    ExitOuts();
  }

  lemma ExitOuts()
    ensures Out(EXIT_NODES, EXIT_LIVE, {}, 0) == {3, 1}
    ensures Out(EXIT_NODES, EXIT_LIVE, {}, 1) == {3, 2, 1}
    ensures Out(EXIT_NODES, EXIT_LIVE, {}, 2) == {3, 2, 1}
    ensures Out(EXIT_NODES, EXIT_LIVE, {}, 3) == {0}
    ensures Out(EXIT_NODES, EXIT_LIVE, {}, 4) == Out(EXIT_NODES, EXIT_LIVE, {}, 5) == {}
  {
  }

  lemma ExitMasked()
    ensures Masked(ExitCode(), ExitCode(), EXIT_LIVE)
  {
    hide Solution, KeepsLive, NodeOf;
    ExitNodes();
    ExitSolved();
  }

  /** The steps common to both codes: whatever r1 and r2 are, the jump is taken and r1 returned. */
  lemma ExitJumps(code: Code, x: int, y: int)
    requires code == ExitCode() || code == Fused(ExitCode(), EXIT_SITE)
    ensures code.Fits(4)
    ensures Step(Falsy(), code, At(2, [0, x, y, 0], 0)) == At(5, [0, x, y, 0], 0)
  {
    ExitFits();
    FusedFits(ExitCode(), EXIT_SITE, 4);
  }

  lemma ExitReturns(code: Code, x: int, y: int)
    requires code == ExitCode() || code == Fused(ExitCode(), EXIT_SITE)
    ensures code.Fits(4)
    ensures Step(Falsy(), code, At(5, [0, x, y, 0], 0)) == Ended(Returned(x), 0)
  {
    ExitFits();
    FusedFits(ExitCode(), EXIT_SITE, 4);
  }

  /** The steps common to both codes: whatever r1 and r2 are, the jump is taken and r1 returned. */
  lemma ExitLeaves(code: Code, x: int, y: int)
    requires code == ExitCode() || code == Fused(ExitCode(), EXIT_SITE)
    ensures code.Fits(4)
    ensures Run(Falsy(), code, At(2, [0, x, y, 0], 0), 2) == Ended(Returned(x), 0)
  {
    hide Step, Falsy, Fused;
    ExitJumps(code, x, y);
    ExitReturns(code, x, y);
    RunOfTwo(Falsy(), code, At(2, [0, x, y, 0], 0));
  }

  lemma ExitStarts()
    ensures ExitCode().Fits(4) && Fused(ExitCode(), EXIT_SITE).Fits(4)
    ensures Run(Falsy(), ExitCode(), At(0, [0, 0, 0, 0], 0), 2) == At(2, [0, 7, 7, 0], 0)
    ensures Run(Falsy(), Fused(ExitCode(), EXIT_SITE), At(0, [0, 0, 0, 0], 0), 2) == At(2, [0, 0, 0, 0], 0)
  {
    ExitFits();
    FusedFits(ExitCode(), EXIT_SITE, 4);
    var h, s := Falsy(), At(0, [0, 0, 0, 0], 0);
    assert Step(h, ExitCode(), s) == At(1, [0, 7, 0, 0], 0);
    assert Step(h, ExitCode(), At(1, [0, 7, 0, 0], 0)) == At(2, [0, 7, 7, 0], 0);
    RunOfTwo(h, ExitCode(), s);
    RunOfTwo(h, Fused(ExitCode(), EXIT_SITE), s);
  }

  lemma RunOfTwo<V, W>(h: Host<V, W>, code: Code, s: State<V, W>)
    requires s.At? ==> code.Fits(|s.regs|)
    ensures Run(h, code, s, 2) == Step(h, code, Step(h, code, s))
  {
    assert Run(h, code, s, 2) == Run(h, code, Step(h, code, s), 1);
  }

  /** All of the code's own checks pass, and yet the fused code returns what r1 held before. */
  lemma ExitHypothesisNeeded()
    ensures Masked(ExitCode(), ExitCode(), EXIT_LIVE)
    ensures MarksTargets(ExitCode().ops, ExitCode().pcs, 0, EXIT_TARGET)
    ensures Fusible(ExitCode(), EXIT_TARGET, EXIT_LIVE[4] + HandlerLive(ExitCode().pcs, EXIT_LIVE, 6), EXIT_SITE)
    ensures !ExitsSafe(ExitCode(), EXIT_LIVE, EXIT_SITE)
    ensures ExitCode().Fits(4) && Fused(ExitCode(), EXIT_SITE).Fits(4)
    ensures Run(Falsy(), ExitCode(), At(0, [0, 0, 0, 0], 0), 4) == Ended(Returned(7), 0)
    ensures Run(Falsy(), Fused(ExitCode(), EXIT_SITE), At(0, [0, 0, 0, 0], 0), 4) == Ended(Returned(0), 0)
  {
    hide Masked, MarksTargets, Fusible, Run, Falsy;
    ExitMasked();
    ExitMarked();
    ExitFusible();
    assert EXIT_LIVE[4] + HandlerLive(ExitCode().pcs, EXIT_LIVE, 6) == EXIT_LIVE[4];
    ExitStarts();
    ExitLeaves(ExitCode(), 7, 7);
    ExitLeaves(Fused(ExitCode(), EXIT_SITE), 0, 0);
    RunAppends(Falsy(), ExitCode(), At(0, [0, 0, 0, 0], 0), 2, 2);
    RunAppends(Falsy(), Fused(ExitCode(), EXIT_SITE), At(0, [0, 0, 0, 0], 0), 2, 2);
    assert 5 in ExitCode().ops[2].Targets();
    assert Inner(ExitCode(), EXIT_SITE) in LiveAt(EXIT_LIVE, 6, 5) * Hidden(ExitCode(), EXIT_SITE, 2);
    assert !ExitsSafeAt(ExitCode(), EXIT_LIVE, EXIT_SITE, 2);
  }

  // ----- For every site, the hypothesis on exits is the right one -----

  /** Op j of the stretch is right about the arrays: whatever the host, if the two codes stand apart
      by no more than the arrays before the op, then so they do after it. */
  ghost predicate StaysApart(code: Code, live: seq<set<Reg>>, s: Site, j: nat, nregs: nat)
    requires Shaped(code, s) && |code.ops| <= |live| && code.Fits(nregs) && Fused(code, s).Fits(nregs)
  {
    forall h: Host<int, int>, a: seq<int>, b: seq<int>, w: int ::
      |a| == nregs && |b| == nregs && Apart(h, code, live, s, j, a, b) ==>
      Related(h, code, live, s, Step(h, code, At(j, a, w)), Step(h, Fused(code, s), At(j, b, w)))
  }

  /** A host in which every jump decides for b, and every array is 1. */
  function Deciding(b: bool): Host<int, int> {
    Host(n => 1, v => b, v => !b, (o, w) => 0, l => 1, (o, l, w) => (0, w),
         (o, l, w) => Yields(0, w), (u, v, w) => Yields(0, w), (x, y, z, w) => Yields(0, w),
         (o, v, w) => Ends(Returned(v), w), (v, w) => Escapes(v, w))
  }

  lemma DecidingTests(op: Op, args: seq<int>, b: bool)
    requires op.Jumps() && |args| >= Arity(op) && (op.J? ==> b)
    ensures Perform(Deciding(b), op, args, 0) == Test(b, 0)
  {
  }

  lemma SomeDecision(op: Op, t: nat, i: nat) returns (b: bool)
    requires op.Jumps() && t in op.Targets()
    ensures op.Successor(b, i) == t && (op.J? ==> b)
  {
    b := if op.Forks() then (if t == op.thenArm then op.when else !op.when) else !op.Jf?;
  }

  lemma ExitUnsafe(code: Code, live: seq<set<Reg>>, s: Site, j: nat, nregs: nat, t: nat, r: Reg)
    requires Sound(code, live, s) && Sealed(code, s) && code.Fits(nregs) && nregs <= TRACKED
    requires s.i1 < j < s.i3 && j != s.i2 && code.keep[j] && t in code.ops[j].Targets()
    requires r in LiveAt(live, |code.ops|, t) && r in Hidden(code, s, j)
    ensures Fused(code, s).Fits(nregs) && !StaysApart(code, live, s, j, nregs)
  {
    hide Sound, Perform, Step, Sealed, HandlerLive, Op.Reads, Op.WithinRegs, Op.Targets, Op.Successor, Op.Jumps;
    SoundLength(code, live, s);
    FusedFits(code, s, nregs);
    SiteFits(code, s, nregs);
    FusedParts(code, s);
    var op := code.ops[j];
    TargetsMeanJumps(op);
    var bit := SomeDecision(op, t, j);
    var h := Deciding(bit);
    var b := seq(nregs, _ => 0);
    var a := seq(nregs, k => if k in Hidden(code, s, j) then 1 else 0);
    assert Apart(h, code, live, s, j, a, b);
    StepIsNext(h, code, j, a, 0);
    StepIsNext(h, Fused(code, s), j, b, 0);
    FitsList(op, code.lists, nregs);
    ArityFits(op, code.lists);
    DecidingTests(op, Fetch(a, op.Reads(code.lists)), bit);
    DecidingTests(op, Fetch(b, op.Reads(code.lists)), bit);
    assert Step(h, code, At(j, a, 0)) == At(t, a, 0) && Step(h, Fused(code, s), At(j, b, 0)) == At(t, b, 0);
    JumpLandsOutside(code, s, j, t);
    assert a[r] != b[r];
    assert !Apart(h, code, live, s, t, a, b);
  }

  lemma JumpLandsOutside(code: Code, s: Site, j: nat, t: nat)
    requires Shaped(code, s) && Sealed(code, s) && j < |code.ops| && t in code.ops[j].Targets()
    ensures !Inside(s, t) && Hidden(code, s, t) == {}
  {
  }

  lemma TargetsMeanJumps(op: Op)
    ensures op.Targets() != {} ==> op.Jumps()
  {
  }

  lemma CommonMember(x: set<Reg>, y: set<Reg>) returns (r: Reg)
    requires !(x !! y)
    ensures r in x && r in y
  {
    r :| r in x && r in y;
  }

  /** At every op of the stretch the check on exits is exact. */
  lemma ExitsSafeExact(code: Code, live: seq<set<Reg>>, s: Site, j: nat, nregs: nat)
    requires Sound(code, live, s) && Sealed(code, s) && code.Fits(nregs) && nregs <= TRACKED
    requires s.i1 < j < s.i3 && j != s.i2 && code.keep[j]
    ensures Shaped(code, s) && |code.ops| <= |live| && Fused(code, s).Fits(nregs)
    ensures ExitsSafeAt(code, live, s, j) <==> StaysApart(code, live, s, j, nregs)
  {
    hide Sound, Sealed, HandlerLive, Step, Apart, Related, Hidden;
    SoundLength(code, live, s);
    FusedFits(code, s, nregs);
    if ExitsSafeAt(code, live, s, j) {
      forall h: Host<int, int>, a: seq<int>, b: seq<int>, w: int | |a| == nregs && |b| == nregs && Apart(h, code, live, s, j, a, b)
        ensures Related(h, code, live, s, Step(h, code, At(j, a, w)), Step(h, Fused(code, s), At(j, b, w)))
      {
        OtherOp(h, code, live, s, j, a, b, w);
      }
    } else {
      var t :| t in code.ops[j].Targets() && !(LiveAt(live, |code.ops|, t) !! Hidden(code, s, j));
      var r := CommonMember(LiveAt(live, |code.ops|, t), Hidden(code, s, j));
      ExitUnsafe(code, live, s, j, nregs, t, r);
    }
  }
}
