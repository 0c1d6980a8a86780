/** Runs that agree on the live registers. Two copies of a function that differ only in which dead
    stores they carry out stay together, step by step, as long as liveness covers what every op
    may need. */
module LiveRuns {
  import opened Bytecode
  import opened Machine
  import opened Liveness

  ghost predicate Agree<V>(live: set<Reg>, a: seq<V>, b: seq<V>) {
    |a| == |b| && forall r :: r in live && r < |a| ==> a[r] == b[r]
  }

  /** The same place, the same world, and the same values in the registers live there. */
  ghost predicate Together<V, W>(live: seq<set<Reg>>, n: nat, s: State<V, W>, t: State<V, W>)
    requires n <= |live|
  {
    match (s, t)
    case (At(i, a, w), At(j, b, x)) => i == j && w == x && Agree(LiveAt(live, n, i), a, b)
    case (Ended(_, _), Ended(_, _)) => s == t
    case _ => false
  }

  /** What must be live at op i for the op to see the values it needs and pass the others on. */
  ghost predicate CoversAt(code: Code, live: seq<set<Reg>>, i: nat)
    requires i < |code.ops| <= |live| && |code.keep| == |code.ops| && code.ops[i].ListFits(code.lists)
  {
    var op, n := code.ops[i], |code.ops|;
    if !code.keep[i] then LiveAt(live, n, i + 1) <= live[i]
    else
      && op.Uses(code.lists) <= live[i]
      && (op.Falls() ==> LiveAt(live, n, i + 1) - Tracked(op.Def()) <= live[i])
      && (forall t :: t in op.Targets() ==> LiveAt(live, n, t) <= live[i])
      && (!op.Safe() ==> HandlerLive(code.pcs, live, n) <= live[i])
  }

  ghost predicate Covers(code: Code, live: seq<set<Reg>>) {
    && |code.ops| <= |live| && |code.keep| == |code.ops|
    && forall i :: 0 <= i < |code.ops| ==> code.ops[i].ListFits(code.lists) && CoversAt(code, live, i)
  }

  /** The ops that `less` masks and `more` carries out store into registers that are dead. */
  ghost predicate DropsDead(more: Code, less: Code, live: seq<set<Reg>>) {
    && more.ops == less.ops && more.lists == less.lists && more.pcs == less.pcs
    && |more.keep| == |less.keep| == |more.ops| <= |live|
    && forall i :: 0 <= i < |more.ops| && more.keep[i] != less.keep[i] ==>
         var op := more.ops[i];
         && more.keep[i] && op.Pure() && op.d !in LiveAt(live, |more.ops|, i + 1)
  }

  lemma {:induction false} HandlerCovers(pcs: seq<(nat, nat)>, live: seq<set<Reg>>, n: nat, pc: nat)
    requires n <= |live| && FindPc(pcs, pc).Some?
    ensures LiveAt(live, n, FindPc(pcs, pc).value) <= HandlerLive(pcs, live, n)
  {
    if pcs[0].0 != pc {
      HandlerCovers(pcs[1..], live, n, pc);
    }
  }

  lemma DepartsTogether<V, W>(h: Host<V, W>, pcs: seq<(nat, nat)>, live: seq<set<Reg>>, n: nat, e: Exit<V, W>, a: seq<V>, b: seq<V>)
    requires n <= |live| && Agree(HandlerLive(pcs, live, n), a, b)
    ensures Together(live, n, Depart(h, pcs, e, a), Depart(h, pcs, e, b))
  {
    forall pc | FindPc(pcs, pc).Some? ensures Agree(LiveAt(live, n, FindPc(pcs, pc).value), a, b) {
      HandlerCovers(pcs, live, n, pc);
    }
  }

  /** The same operands give the same act. */
  lemma SameOperands<V>(op: Op, lists: seq<Reg>, live: set<Reg>, a: seq<V>, b: seq<V>)
    requires op.WithinRegs(lists, |a|) && |a| <= TRACKED && Agree(live, a, b) && op.Uses(lists) <= live
    ensures Fetch(a, op.Reads(lists)) == Fetch(b, op.Reads(lists))
  {
    var from := op.Reads(lists);
    forall i | 0 <= i < |from| ensures a[from[i]] == b[from[i]] {
      assert from[i] in op.Uses(lists);
    }
  }

  /** One op, carried out in both copies. */
  lemma NextTogether<V, W>(h: Host<V, W>, code: Code, live: seq<set<Reg>>, i: nat, a: seq<V>, b: seq<V>, w: W)
    requires code.Fits(|a|) && |a| <= TRACKED && i < |code.ops| <= |live| && code.ops[i].ListFits(code.lists) && CoversAt(code, live, i)
    requires code.keep[i] && Agree(live[i], a, b)
    ensures Together(live, |code.ops|, Step(h, code, At(i, a, w)), Step(h, code, At(i, b, w)))
  {
    hide Perform, HandlerLive, Depart;
    var op, n := code.ops[i], |code.ops|;
    SameOperands(op, code.lists, live[i], a, b);
    var args := Fetch(a, op.Reads(code.lists));
    var act := Perform(h, op, args, w);
    match act
    case Value(v, w') =>
      ValuesFall(h, op, args, w);
    case Test(bit, w') =>
      TestsJump(h, op, args, w);
      SuccessorCases(op, bit, i);
    case Leave(e) =>
      if !op.Safe() {
        DepartsTogether(h, code.pcs, live, n, e, a, b);
      } else {
        SafeOpsStay(h, op, args, w);
        DepartEnds(h, code.pcs, Fault(op.why), w, a, b);
      }
  }

  lemma DepartEnds<V, W>(h: Host<V, W>, pcs: seq<(nat, nat)>, how: End<V>, w: W, a: seq<V>, b: seq<V>)
    ensures Depart(h, pcs, Ends(how, w), a) == Depart(h, pcs, Ends(how, w), b) == Ended(how, w)
  {
  }

  lemma SuccessorCases(op: Op, b: bool, i: nat)
    requires op.Jumps()
    ensures op.Successor(b, i) in op.Targets() || (op.Falls() && op.Successor(b, i) == i + 1)
    ensures Tracked(op.Def()) == {}
  {
  }

  /** One step of both copies, of which one may leave out a dead store. */
  lemma StepTogether<V, W>(h: Host<V, W>, more: Code, less: Code, live: seq<set<Reg>>, s: State<V, W>, t: State<V, W>)
    requires DropsDead(more, less, live) && Covers(less, live)
    requires s.At? ==> more.Fits(|s.regs|) && |s.regs| <= TRACKED
    requires t.At? ==> less.Fits(|t.regs|)
    requires Together(live, |more.ops|, s, t)
    ensures Together(live, |more.ops|, Step(h, more, s), Step(h, less, t))
  {
    hide Perform, HandlerLive;
    if s.At? && s.ip < |more.ops| {
      var i := s.ip;
      assert CoversAt(less, live, i);
      if less.keep[i] {
        NextTogether(h, less, live, i, s.regs, t.regs, s.w);
      } else if more.keep[i] {
        PureSteps(h, more, s);
      }
    }
  }

  lemma PureSteps<V, W>(h: Host<V, W>, code: Code, s: State<V, W>)
    requires s.At? && code.Fits(|s.regs|) && s.ip < |code.ops| && code.keep[s.ip] && code.ops[s.ip].Pure()
    ensures var t := Step(h, code, s);
            t.At? && t.ip == s.ip + 1 && t.w == s.w
            && forall r :: 0 <= r < |s.regs| && r != code.ops[s.ip].d ==> t.regs[r] == s.regs[r]
  {
  }

  lemma {:induction false} RunTogether<V, W>(h: Host<V, W>, more: Code, less: Code, live: seq<set<Reg>>, s: State<V, W>, t: State<V, W>, n: nat)
    requires DropsDead(more, less, live) && Covers(less, live)
    requires s.At? ==> more.Fits(|s.regs|) && |s.regs| <= TRACKED
    requires t.At? ==> less.Fits(|t.regs|)
    requires Together(live, |more.ops|, s, t)
    ensures Together(live, |more.ops|, Run(h, more, s, n), Run(h, less, t, n))
    decreases n
  {
    if n > 0 {
      StepTogether(h, more, less, live, s, t);
      RunTogether(h, more, less, live, Step(h, more, s), Step(h, less, t), n - 1);
    }
  }

  // ----- What the equations give -----

  function NodesOf(ops: seq<Op>, lists: seq<Reg>): (nodes: seq<Node>)
    requires forall i :: 0 <= i < |ops| ==> ops[i].ListFits(lists)
    ensures |nodes| == |ops| && forall i :: 0 <= i < |ops| ==> nodes[i] == NodeOf(ops[i], lists)
  {
    seq(|ops|, i requires 0 <= i < |ops| => NodeOf(ops[i], lists))
  }

  /** `spare`: registers that agree anyway, as no store to them is left out. */
  function Widen(live: seq<set<Reg>>, spare: set<Reg>): (wide: seq<set<Reg>>)
    ensures |wide| == |live| && forall i :: 0 <= i < |live| ==> wide[i] == live[i] + spare
  {
    seq(|live|, i requires 0 <= i < |live| => live[i] + spare)
  }

  predicate Spares(code: Code, spare: set<Reg>) {
    forall i :: 0 <= i < |code.ops| && i < |code.keep| && !code.keep[i] ==> Tracked(code.ops[i].Def()) !! spare
  }

  /** An op that may throw must not write a register that is live at a handler, unless something else makes
      that register live before the op, or no store to it is left out: the handler sees the value from before. */
  predicate HandlerSafeAt(ops: seq<Op>, pcs: seq<(nat, nat)>, live: seq<set<Reg>>, spare: set<Reg>, i: nat)
    requires i < |ops| <= |live|
  {
    !ops[i].Safe() ==> HandlerLive(pcs, live, |ops|) * Tracked(ops[i].Def()) <= live[i] + spare
  }

  predicate HandlerSafe(ops: seq<Op>, pcs: seq<(nat, nat)>, live: seq<set<Reg>>, spare: set<Reg>)
    requires |ops| <= |live|
  {
    forall i :: 0 <= i < |ops| ==> HandlerSafeAt(ops, pcs, live, spare, i)
  }

  lemma {:induction false} WideHandlers(pcs: seq<(nat, nat)>, live: seq<set<Reg>>, spare: set<Reg>, n: nat)
    requires n <= |live|
    ensures HandlerLive(pcs, live, n) <= HandlerLive(pcs, Widen(live, spare), n) <= HandlerLive(pcs, live, n) + spare
  {
    if pcs != [] {
      WideHandlers(pcs[1..], live, spare, n);
    }
  }

  lemma OutParts(nodes: seq<Node>, live: seq<set<Reg>>, hl: set<Reg>, i: nat)
    requires i < |nodes| && |nodes| + 2 == |live|
    ensures var out, nd, n := Out(nodes, live, hl, i), nodes[i], |nodes|;
            && LiveAt(live, n, nd.s1) <= out && LiveAt(live, n, nd.s2) <= out
            && (nd.falls ==> live[i + 1] <= out) && (nd.throws ==> hl <= out)
  {
  }

  lemma KeptPasses(nd: Node, out: set<Reg>, part: set<Reg>)
    requires !Dead(nd, out) && part <= out
    ensures part - nd.def <= LiveIn(nd, out) && nd.uses <= LiveIn(nd, out)
  {
  }

  /** A solution covers every op but, possibly, the ones that may throw. */
  lemma SolutionCoversAt(code: Code, live: seq<set<Reg>>, spare: set<Reg>, i: nat)
    requires i < |code.ops| <= NONE && |code.keep| == |code.ops|
    requires forall k :: 0 <= k < |code.ops| ==> code.ops[k].ListFits(code.lists)
    requires var nodes := NodesOf(code.ops, code.lists);
             Solution(nodes, code.pcs, live) && KeepsLive(nodes, code.pcs, live, code.keep)
    ensures CoversAt(code, Widen(live, spare), i) <==> !code.keep[i] || HandlerSafeAt(code.ops, code.pcs, live, spare, i)
    ensures !code.keep[i] ==> code.ops[i].Pure() && code.ops[i].d !in LiveAt(live, |code.ops|, i + 1)
  {
    hide HandlerLive, NodeOf, Out, LiveIn, Dead, Op.Targets, Op.Uses, Op.Pure, Op.Safe, Op.Leaves, Op.Falls, Op.Def, Tracked;
    var nodes := NodesOf(code.ops, code.lists);
    var op, n, hl := code.ops[i], |nodes|, HandlerLive(code.pcs, live, |nodes|);
    var nd, out := nodes[i], Out(nodes, live, hl, i);
    assert live[i] == LiveIn(nd, out) && code.keep[i] == !Dead(nd, out);
    assert LiveAt(live, n, i + 1) == live[i + 1];
    NodeIs(op, code.lists);
    OutParts(nodes, live, hl, i);
    if Dead(nd, out) {
      DeadPasses(nd, out);
      assert op.HasDest() && op.d in nd.def;
      assert op.d in out * nd.def <==> op.d in out;
      assert LiveAt(Widen(live, spare), n, i + 1) <= live[i + 1] + spare;
    } else {
      KeptPasses(nd, out, live[i + 1] * out);
      KeptPasses(nd, out, hl * out);
      KeptPasses(nd, out, LiveAt(live, n, nd.s1));
      KeptPasses(nd, out, LiveAt(live, n, nd.s2));
      CoversFromParts(code, live, spare, i, nd, out);
    }
  }

  lemma DeadPasses(nd: Node, out: set<Reg>)
    requires Dead(nd, out)
    ensures nd.pure && LiveIn(nd, out) == out && out * nd.def == {}
  {
  }

  lemma CoversFromParts(code: Code, live: seq<set<Reg>>, spare: set<Reg>, i: nat, nd: Node, out: set<Reg>)
    requires i < |code.ops| && |code.ops| + 2 == |live| && |code.keep| == |code.ops| && code.ops[i].ListFits(code.lists)
    requires code.keep[i] && nd == NodeOf(code.ops[i], code.lists)
    requires var n, hl := |code.ops|, HandlerLive(code.pcs, live, |code.ops|);
             && live[n] == {} && nd.uses <= live[i]
             && (nd.falls ==> live[i + 1] - nd.def <= live[i]) && (nd.throws ==> hl - nd.def <= live[i])
             && LiveAt(live, n, nd.s1) - nd.def <= live[i] && LiveAt(live, n, nd.s2) - nd.def <= live[i]
    ensures CoversAt(code, Widen(live, spare), i) <==> HandlerSafeAt(code.ops, code.pcs, live, spare, i)
  {
    hide HandlerLive, NodeOf, Op.Targets, Op.Uses, Op.Pure, Op.Safe, Op.Leaves, Op.Falls, Op.Def, Tracked;
    var op, n, hl := code.ops[i], |code.ops|, HandlerLive(code.pcs, live, |code.ops|);
    var wide := Widen(live, spare);
    NodeIs(op, code.lists);
    WideHandlers(code.pcs, live, spare, n);
    assert LiveAt(live, n, i + 1) == live[i + 1];
    assert op.Falls() ==> LiveAt(wide, n, i + 1) - nd.def <= wide[i];
    forall t | t in op.Targets() ensures LiveAt(wide, n, t) <= wide[i] {
      assert LiveAt(live, n, t) <= live[i];
    }
    assert hl <= wide[i] <==> hl - nd.def <= wide[i] && hl * nd.def <= wide[i];
    assert HandlerLive(code.pcs, wide, n) <= wide[i] <==> hl <= wide[i];
  }

  lemma NodeIs(op: Op, lists: seq<Reg>)
    requires op.ListFits(lists)
    ensures var nd := NodeOf(op, lists);
            && nd.uses == op.Uses(lists) && nd.def == Tracked(op.Def())
            && nd.falls == op.Falls() && nd.throws == !op.Safe()
            && nd.pure == (op.Pure() && nd.def != {})
            && forall t :: t in op.Targets() ==> t == nd.s1 || t == nd.s2
    ensures op.Targets() != {} ==> Tracked(op.Def()) == {}
    ensures op.Pure() ==> op.Falls() && op.HasDest() && (Tracked(op.Def()) != {} ==> op.d in Tracked(op.Def()))
  {
    hide Op.Uses;
    PureDefines(op);
    LeavingThrows(op);
  }

  lemma PureDefines(op: Op)
    ensures op.Pure() ==> op.Falls() && op.HasDest()
    ensures op.Jumps() ==> !op.HasDest()
  {
  }

  lemma LeavingThrows(op: Op)
    ensures op.Leaves() ==> !op.Safe()
  {
  }

  /** `full` with the dead stores masked by a solution of the liveness equations. */
  ghost predicate Masked(full: Code, less: Code, live: seq<set<Reg>>) {
    && full.ops == less.ops && full.lists == less.lists && full.pcs == less.pcs
    && |full.ops| <= NONE && |full.keep| == |less.keep| == |full.ops|
    && (forall i :: 0 <= i < |full.ops| ==> full.keep[i] && full.ops[i].ListFits(full.lists))
    && var nodes := NodesOf(full.ops, full.lists);
       Solution(nodes, full.pcs, live) && KeepsLive(nodes, full.pcs, live, less.keep)
  }

  lemma MaskedCovers(full: Code, less: Code, live: seq<set<Reg>>, spare: set<Reg>)
    requires Masked(full, less, live) && |full.ops| <= |live| && HandlerSafe(full.ops, full.pcs, live, spare) && Spares(less, spare)
    ensures Covers(less, Widen(live, spare)) && DropsDead(full, less, Widen(live, spare))
  {
    hide Solution, KeepsLive, CoversAt, HandlerLive;
    MaskedShape(full, less, live);
    forall i | 0 <= i < |full.ops|
      ensures CoversAt(less, Widen(live, spare), i)
      ensures !less.keep[i] ==> full.ops[i].Pure() && full.ops[i].d !in LiveAt(Widen(live, spare), |full.ops|, i + 1)
    {
      assert HandlerSafeAt(full.ops, full.pcs, live, spare, i);
      SolutionCoversAt(less, live, spare, i);
      if !less.keep[i] {
        DroppedIsTracked(full, less, live, i);
      }
    }
  }

  /** A store that is dropped is one to a register that liveness tracks. */
  lemma DroppedIsTracked(full: Code, less: Code, live: seq<set<Reg>>, i: nat)
    requires Masked(full, less, live) && i < |full.ops| && !less.keep[i]
    ensures full.ops[i].d in Tracked(full.ops[i].Def())
  {
    hide HandlerLive, Solution, LiveIn;
    MaskedShape(full, less, live);
    NodeIs(full.ops[i], full.lists);
    assert KeepsLive(NodesOf(full.ops, full.lists), full.pcs, live, less.keep);
  }

  lemma MaskedShape(full: Code, less: Code, live: seq<set<Reg>>)
    requires Masked(full, less, live)
    ensures |live| == |full.ops| + 2 && |full.keep| == |less.keep| == |full.ops|
    ensures full.ops == less.ops && full.lists == less.lists && full.pcs == less.pcs
  {
  }

  /** Dead-store elimination preserves every run, op for op: after any number of steps the two runs stand at
      the same op in the same world, with the same values in live registers and in those of which no store
      is dropped, or have ended alike. */
  lemma DeadStoresPreserve<V, W>(h: Host<V, W>, full: Code, less: Code, live: seq<set<Reg>>, spare: set<Reg>, s: State<V, W>, n: nat)
    requires Masked(full, less, live) && |full.ops| <= |live| && HandlerSafe(full.ops, full.pcs, live, spare) && Spares(less, spare)
    requires s.At? ==> full.Fits(|s.regs|) && |s.regs| <= TRACKED
    ensures Together(Widen(live, spare), |full.ops|, Run(h, full, s, n), Run(h, less, s, n))
  {
    hide Masked, HandlerSafe, Spares;
    MaskedShape(full, less, live);
    MaskedCovers(full, less, live, spare);
    RunTogether(h, full, less, Widen(live, spare), s, s, n);
  }

  // ----- The hypothesis on handlers is needed, and is the right one -----

  predicate DistinctPcs(pcs: seq<(nat, nat)>) {
    forall i, j :: 0 <= i < j < |pcs| ==> pcs[i].0 != pcs[j].0
  }

  lemma {:induction false} HandlerWitness(pcs: seq<(nat, nat)>, live: seq<set<Reg>>, n: nat, r: Reg) returns (pc: nat)
    requires n <= |live| && DistinctPcs(pcs) && r in HandlerLive(pcs, live, n)
    ensures FindPc(pcs, pc).Some? && r in LiveAt(live, n, FindPc(pcs, pc).value)
    ensures exists k :: 0 <= k < |pcs| && pcs[k].0 == pc
  {
    if r in LiveAt(live, n, pcs[0].1) {
      pc := pcs[0].0;
    } else {
      pc := HandlerWitness(pcs[1..], live, n, r);
      var k :| 0 <= k < |pcs[1..]| && pcs[1..][k].0 == pc;
      assert pcs[k + 1].0 == pc;
    }
  }

  /** A host in which whatever can throw does, and the handler is at `pc`. */
  function Throwing(pc: nat): Host<int, int> {
    Host(n => 1, v => true, v => false, (o, w) => 0, l => 0, (o, l, w) => (0, w),
         (o, l, w) => Raises(0, w), (u, v, w) => Raises(0, w), (b, x, y, w) => Raises(0, w),
         (o: Op, v, w) => if o.Ret? then Ends(Returned(v), w) else Resumes(pc, w), (v, w) => Resumes(pc, w))
  }

  /** Op i is right about liveness: whatever the host, registers that agree where `live` says they
      must still do so after the op. */
  ghost predicate RightAt(code: Code, live: seq<set<Reg>>, i: nat, nregs: nat)
    requires code.Fits(nregs) && i < |code.ops| <= |live|
  {
    forall h: Host<int, int>, a: seq<int>, b: seq<int>, w: int ::
      |a| == nregs && |b| == nregs && Agree(live[i], a, b) ==>
      Together(live, |code.ops|, Step(h, code, At(i, a, w)), Step(h, code, At(i, b, w)))
  }

  /** For every op that is kept, the check on handlers is exact, whatever registers agree anyway. */
  lemma HandlerSafeExact(full: Code, less: Code, live: seq<set<Reg>>, spare: set<Reg>, i: nat, nregs: nat)
    requires Masked(full, less, live) && full.Fits(nregs) && nregs <= TRACKED
    requires i < |full.ops| && less.keep[i] && DistinctPcs(full.pcs)
    ensures RightAt(less, Widen(live, spare), i, nregs) <==> HandlerSafeAt(full.ops, full.pcs, live, spare, i)
  {
    hide Solution, KeepsLive, CoversAt, HandlerLive;
    MaskedShape(full, less, live);
    var wide := Widen(live, spare);
    if HandlerSafeAt(full.ops, full.pcs, live, spare, i) {
      SolutionCoversAt(less, live, spare, i);
      forall h: Host<int, int>, a: seq<int>, b: seq<int>, w: int | |a| == nregs && |b| == nregs && Agree(wide[i], a, b)
        ensures Together(wide, |less.ops|, Step(h, less, At(i, a, w)), Step(h, less, At(i, b, w)))
      {
        NextTogether(h, less, wide, i, a, b, w);
      }
    } else {
      HandlerUnsafe(less, live, spare, i, nregs);
    }
  }

  /** So liveness is right at every op if and only if it is safe for handlers. */
  lemma HandlersSafeExactly(full: Code, less: Code, live: seq<set<Reg>>, spare: set<Reg>, nregs: nat)
    requires Masked(full, less, live) && full.Fits(nregs) && nregs <= TRACKED && DistinctPcs(full.pcs)
    ensures |less.ops| == |less.keep| <= |live| && less.Fits(nregs)
    ensures (forall i :: 0 <= i < |less.ops| && less.keep[i] ==> RightAt(less, Widen(live, spare), i, nregs))
            <==> HandlerSafe(full.ops, full.pcs, live, spare)
  {
    hide RightAt, Solution, HandlerLive, HandlerSafeAt;
    MaskedShape(full, less, live);
    forall i | 0 <= i < |less.ops| && less.keep[i]
      ensures RightAt(less, Widen(live, spare), i, nregs) <==> HandlerSafeAt(full.ops, full.pcs, live, spare, i)
    {
      HandlerSafeExact(full, less, live, spare, i, nregs);
    }
    forall i | 0 <= i < |less.ops| && !less.keep[i] ensures HandlerSafeAt(full.ops, full.pcs, live, spare, i) {
      MaskedIsSafe(full, less, live, spare, i);
    }
  }

  lemma MaskedIsSafe(full: Code, less: Code, live: seq<set<Reg>>, spare: set<Reg>, i: nat)
    requires Masked(full, less, live) && i < |full.ops| && !less.keep[i]
    ensures i < |full.ops| <= |live| && HandlerSafeAt(full.ops, full.pcs, live, spare, i)
  {
    hide HandlerLive, Solution;
    MaskedShape(full, less, live);
    assert KeepsLive(NodesOf(full.ops, full.lists), full.pcs, live, less.keep);
    SolutionCoversAt(less, live, spare, i);
  }

  lemma HandlerUnsafe(code: Code, live: seq<set<Reg>>, spare: set<Reg>, i: nat, nregs: nat)
    requires code.Fits(nregs) && i < |code.ops| <= |live| && code.keep[i] && DistinctPcs(code.pcs)
    requires !HandlerSafeAt(code.ops, code.pcs, live, spare, i)
    ensures !RightAt(code, Widen(live, spare), i, nregs)
  {
    hide HandlerLive;
    var op, n, wide := code.ops[i], |code.ops|, Widen(live, spare);
    var r :| r in HandlerLive(code.pcs, live, n) * Tracked(op.Def()) && r !in live[i] + spare;
    assert r == op.d < nregs;
    var pc := HandlerWitness(code.pcs, live, n, r);
    var h := Throwing(pc);
    var a := seq(nregs, _ => 0);
    var b := a[r := 1];
    assert Agree(wide[i], a, b);
    ThrowingSteps(code, i, a, pc);
    ThrowingSteps(code, i, b, pc);
    assert r in LiveAt(wide, n, FindPc(code.pcs, pc).value);
    assert !Together(wide, n, Step(h, code, At(i, a, 0)), Step(h, code, At(i, b, 0)));
  }

  lemma ThrowingSteps(code: Code, i: nat, a: seq<int>, pc: nat)
    requires code.Fits(|a|) && i < |code.ops| && code.keep[i] && FindPc(code.pcs, pc).Some?
    requires !code.ops[i].Safe() && code.ops[i].HasDest()
    ensures Step(Throwing(pc), code, At(i, a, 0)) == At(FindPc(code.pcs, pc).value, a, 0)
  {
    var op, h := code.ops[i], Throwing(pc);
    var args := Fetch(a, op.Reads(code.lists));
    ThrowingPerforms(op, args, pc);
  }

  lemma ThrowingPerforms(op: Op, args: seq<int>, pc: nat)
    requires |args| >= Arity(op) && !op.Safe() && op.HasDest()
    ensures Perform(Throwing(pc), op, args, 0) == Leave(Escapes(0, 0))
  {
  }

  lemma RunOfThree<V, W>(h: Host<V, W>, code: Code, s: State<V, W>)
    requires s.At? ==> code.Fits(|s.regs|)
    ensures Run(h, code, s, 3) == Step(h, code, Step(h, code, Step(h, code, s)))
  {
    assert Run(h, code, s, 3) == Run(h, code, Step(h, code, s), 2);
    assert Run(h, code, Step(h, code, s), 2) == Run(h, code, Step(h, code, Step(h, code, s)), 1);
  }
}
