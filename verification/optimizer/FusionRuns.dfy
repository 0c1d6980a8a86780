/** Call fusion preserves every run, op for op, provided no jump leaves the stretch between the
    arrays and the call for a place where an array is still needed. */
module FusionRuns {
  import opened Basics
  import opened Bytecode
  import opened Machine
  import opened Liveness
  import opened LiveRuns
  import opened Fusion

  /** All that a site promises, once its checks have been passed. */
  ghost predicate Sound(code: Code, live: seq<set<Reg>>, s: Site) {
    && Covers(code, live) && Shaped(code, s)
    && code.keep[s.i1] && code.keep[s.i2] && code.keep[s.i3]
    && code.ops[s.i2].d == Outer(code, s) && code.ops[s.i1].d == Inner(code, s)
    && Registers(code, s)
    && {Outer(code, s), Inner(code, s)} !! LiveAt(live, |code.ops|, s.i3 + 1)
    && {Outer(code, s), Inner(code, s)} !! HandlerLive(code.pcs, live, |code.ops|)
    && forall j :: s.i1 < j < s.i3 && code.keep[j] && j != s.i2 ==> Harmless(code, s, j)
  }

  ghost predicate Registers(code: Code, s: Site)
    requires Shaped(code, s)
  {
    var ra, rb, th, call := Outer(code, s), Inner(code, s), Receiver(code, s), code.ops[s.i3];
    && ra < TRACKED && rb < TRACKED && ra != rb && th < TRACKED && th != ra && th != rb
    && ra != call.f && ra != call.t && rb != call.f && rb != call.t
    && forall r :: r in Elements(code, s) ==> r < TRACKED && r != ra && r != rb
  }

  /** The stretch in which the old code holds an array that the new code does not. */
  predicate Inside(s: Site, ip: nat) {
    s.i1 < ip <= s.i3
  }

  /** Control enters the stretch only by falling into it. */
  ghost predicate Sealed(code: Code, s: Site) {
    && (forall i, t :: 0 <= i < |code.ops| && t in code.ops[i].Targets() ==> !Inside(s, t))
    && (forall i :: 0 <= i < |code.pcs| ==> !Inside(s, code.pcs[i].1))
  }

  /** The array registers that differ at ip. */
  function Hidden(code: Code, s: Site, ip: nat): set<Reg>
    requires Shaped(code, s)
  {
    (if Inside(s, ip) then {Inner(code, s)} else {}) + (if s.i2 < ip <= s.i3 then {Outer(code, s)} else {})
  }

  /** The hypothesis: a jump out of the stretch does not lead to where an array is live. */
  ghost predicate ExitsSafeAt(code: Code, live: seq<set<Reg>>, s: Site, j: nat)
    requires Shaped(code, s) && |code.ops| <= |live| && j < |code.ops|
  {
    forall t :: t in code.ops[j].Targets() ==> LiveAt(live, |code.ops|, t) !! Hidden(code, s, j)
  }

  ghost predicate ExitsSafe(code: Code, live: seq<set<Reg>>, s: Site)
    requires Shaped(code, s) && |code.ops| <= |live| && |code.keep| == |code.ops|
  {
    forall j :: s.i1 < j < s.i3 && code.keep[j] ==> ExitsSafeAt(code, live, s, j)
  }

  /** The old code stands with registers a, the new code with registers b. */
  ghost predicate Apart<V, W>(h: Host<V, W>, code: Code, live: seq<set<Reg>>, s: Site, ip: nat, a: seq<V>, b: seq<V>)
    requires Shaped(code, s) && |code.ops| <= |live| && code.Fits(|a|) && |a| == |b|
  {
    SiteFits(code, s, |a|);
    && Agree(LiveAt(live, |code.ops|, ip) - Hidden(code, s, ip), a, b)
    && (Inside(s, ip) ==> a[Inner(code, s)] == h.list(Fetch(b, Elements(code, s))))
    && (s.i2 < ip <= s.i3 ==> a[Outer(code, s)] == h.list([b[Receiver(code, s)], h.list(Fetch(b, Elements(code, s)))]))
  }

  lemma SiteFits(code: Code, s: Site, nregs: nat)
    requires Shaped(code, s) && code.Fits(nregs)
    ensures Inner(code, s) < nregs && Receiver(code, s) < nregs && Outer(code, s) < nregs
    ensures forall i :: 0 <= i < |Elements(code, s)| ==> Elements(code, s)[i] < nregs
  {
    var op1, op2, op3 := code.ops[s.i1], code.ops[s.i2], code.ops[s.i3];
    assert op1.WithinRegs(code.lists, nregs) && op2.WithinRegs(code.lists, nregs) && op3.WithinRegs(code.lists, nregs);
    assert op1.Reads(code.lists) == Elements(code, s);
    assert op2.Reads(code.lists)[0] == Receiver(code, s) && op2.Reads(code.lists)[1] == Inner(code, s);
    assert op3.Reads(code.lists)[2] == Outer(code, s);
  }

  ghost predicate Related<V, W>(h: Host<V, W>, code: Code, live: seq<set<Reg>>, s: Site, x: State<V, W>, y: State<V, W>)
    requires Shaped(code, s) && |code.ops| <= |live|
  {
    match (x, y)
    case (At(i, a, w), At(j, b, w')) => i == j && w == w' && |a| == |b| && code.Fits(|a|) && Apart(h, code, live, s, i, a, b)
    case (Ended(_, _), Ended(_, _)) => x == y
    case _ => false
  }

  lemma FusedFits(code: Code, s: Site, nregs: nat)
    requires Shaped(code, s) && code.Fits(nregs)
    ensures Fused(code, s).Fits(nregs)
  {
    SiteFits(code, s, nregs);
    var rewritten, call := Fused(code, s), code.ops[s.i3];
    assert call.WithinRegs(code.lists, nregs) && call.Reads(code.lists) == [call.f, call.t, call.arr];
    assert call.Reads(code.lists)[0] == call.f && call.Reads(code.lists)[1] == call.t;
    var from := rewritten.ops[s.i3].Reads(code.lists);
    assert from == [call.f, call.t, Receiver(code, s)] + Elements(code, s);
  }

  // ----- One op, in both codes -----

  /** An op other than the three does not move the edge of the stretch, and reads no array. */
  lemma OtherOpQuiet(code: Code, live: seq<set<Reg>>, s: Site, i: nat)
    requires Sound(code, live, s) && i < |code.ops| && i != s.i1 && i != s.i2 && i != s.i3
    ensures Hidden(code, s, i + 1) == Hidden(code, s, i) && Inside(s, i + 1) == Inside(s, i)
    ensures code.ops[i].ListFits(code.lists)
    ensures code.keep[i] ==> code.ops[i].Uses(code.lists) <= live[i] - Hidden(code, s, i)
    ensures code.keep[i] && Inside(s, i) ==> Harmless(code, s, i)
  {
    hide HandlerLive, Op.Uses, Op.Targets;
    assert CoversAt(code, live, i);
  }

  lemma FallsApart<V, W>(h: Host<V, W>, code: Code, live: seq<set<Reg>>, s: Site, i: nat, a: seq<V>, b: seq<V>, v: V)
    requires Sound(code, live, s) && i < |code.ops| && i != s.i1 && i != s.i2 && i != s.i3
    requires code.Fits(|a|) && |a| == |b| <= TRACKED && Apart(h, code, live, s, i, a, b)
    requires code.ops[i].Falls()
    ensures var op := code.ops[i];
            op.HasDest() && code.keep[i] ==> op.d < |a| && Apart(h, code, live, s, i + 1, a[op.d := v], b[op.d := v])
    ensures !(code.keep[i] && code.ops[i].HasDest()) ==> Apart(h, code, live, s, i + 1, a, b)
  {
    hide HandlerLive, Op.Uses, Op.Targets, Op.Reads, Op.Falls, Op.ListFits, Hidden;
    OtherOpQuiet(code, live, s, i);
    SiteFits(code, s, |a|);
    assert CoversAt(code, live, i);
    var op := code.ops[i];
    assert op.WithinRegs(code.lists, |a|);
    var next := LiveAt(live, |code.ops|, i + 1);
    if code.keep[i] && op.HasDest() {
      assert op.Def() == Some(op.d);
      var a', b' := a[op.d := v], b[op.d := v];
      assert Agree(next - Hidden(code, s, i), a', b');
      if Inside(s, i) {
        assert Fetch(b', Elements(code, s)) == Fetch(b, Elements(code, s));
      }
    } else {
      assert next <= live[i];
      assert Agree(next - Hidden(code, s, i), a, b);
    }
  }

  lemma JumpsApart<V, W>(h: Host<V, W>, code: Code, live: seq<set<Reg>>, s: Site, i: nat, a: seq<V>, b: seq<V>, t: nat)
    requires Sound(code, live, s) && Sealed(code, s)
    requires i < |code.ops| && i != s.i1 && i != s.i2 && i != s.i3 && code.keep[i]
    requires Inside(s, i) ==> ExitsSafeAt(code, live, s, i)
    requires code.Fits(|a|) && |a| == |b| <= TRACKED && Apart(h, code, live, s, i, a, b)
    requires t in code.ops[i].Targets()
    ensures Apart(h, code, live, s, t, a, b)
  {
    hide HandlerLive, Op.Uses, Op.Targets, Op.Reads, Op.Falls, Op.HasDest, Op.ListFits;
    SiteFits(code, s, |a|);
    assert CoversAt(code, live, i);
    assert !Inside(s, t);
    if s.i1 < i < s.i3 {
      assert LiveAt(live, |code.ops|, t) !! Hidden(code, s, i);
    }
    assert LiveAt(live, |code.ops|, t) <= live[i] - Hidden(code, s, i);
  }

  lemma HandlersApart<V, W>(h: Host<V, W>, code: Code, live: seq<set<Reg>>, s: Site, i: nat, a: seq<V>, b: seq<V>, e: Exit<V, W>)
    requires Sound(code, live, s) && Sealed(code, s)
    requires i < |code.ops| && code.keep[i] && !code.ops[i].Safe()
    requires code.Fits(|a|) && |a| == |b| <= TRACKED && Apart(h, code, live, s, i, a, b)
    ensures Related(h, code, live, s, Depart(h, code.pcs, e, a), Depart(h, code.pcs, e, b))
  {
    hide HandlerLive, Op.Uses, Op.Targets, Op.Reads, Op.Falls, Op.HasDest, Op.ListFits;
    SiteFits(code, s, |a|);
    assert CoversAt(code, live, i);
    var n := |code.ops|;
    forall pc | FindPc(code.pcs, pc).Some?
      ensures Apart(h, code, live, s, FindPc(code.pcs, pc).value, a, b)
    {
      var t := FindPc(code.pcs, pc).value;
      HandlerCovers(code.pcs, live, n, pc);
      FindPcIn(code.pcs, pc);
      assert !Inside(s, t);
      assert LiveAt(live, n, t) <= live[i] - Hidden(code, s, i);
    }
  }

  lemma {:induction false} FindPcIn(pcs: seq<(nat, nat)>, pc: nat)
    requires FindPc(pcs, pc).Some?
    ensures exists k :: 0 <= k < |pcs| && pcs[k].1 == FindPc(pcs, pc).value
  {
    if pcs[0].0 != pc {
      FindPcIn(pcs[1..], pc);
      var k :| 0 <= k < |pcs[1..]| && pcs[1..][k].1 == FindPc(pcs, pc).value;
      assert pcs[k + 1].1 == FindPc(pcs, pc).value;
    }
  }

  /** An op other than the three does the same in both codes. */
  lemma OtherOp<V, W>(h: Host<V, W>, code: Code, live: seq<set<Reg>>, s: Site, i: nat, a: seq<V>, b: seq<V>, w: W)
    requires Sound(code, live, s) && Sealed(code, s)
    requires code.Fits(|a|) && |a| == |b| <= TRACKED && Apart(h, code, live, s, i, a, b)
    requires i < |code.ops| && i != s.i1 && i != s.i2 && i != s.i3
    requires Inside(s, i) && code.keep[i] ==> ExitsSafeAt(code, live, s, i)
    ensures Fused(code, s).Fits(|a|)
    ensures Related(h, code, live, s, Step(h, code, At(i, a, w)), Step(h, Fused(code, s), At(i, b, w)))
  {
    hide Sound, Sealed, ExitsSafeAt, Apart, Perform, Op.Uses, Op.Targets, Op.Reads, Op.HasDest, Op.ListFits, HandlerLive, Depart;
    SoundLength(code, live, s);
    FusedFits(code, s, |a|);
    var op, rewritten := code.ops[i], Fused(code, s);
    assert rewritten.ops[i] == op && rewritten.keep[i] == code.keep[i] && rewritten.pcs == code.pcs && rewritten.lists == code.lists;
    if code.keep[i] {
      StepIsNext(h, code, i, a, w);
      StepIsNext(h, rewritten, i, b, w);
      OtherOpQuiet(code, live, s, i);
      SameOperandsApart(h, code, live, s, i, a, b);
      var args := Fetch(a, op.Reads(code.lists));
      var act := Perform(h, op, args, w);
      match act
      case Value(v, w') =>
        ValuesFall(h, op, args, w);
        FallsApart(h, code, live, s, i, a, b, v);
      case Test(bit, w') =>
        SuccessorCases(op, bit, i);
        if op.Successor(bit, i) in op.Targets() {
          JumpsApart(h, code, live, s, i, a, b, op.Successor(bit, i));
        } else {
          JumpsDefineNothing(op);
          FallsApart(h, code, live, s, i, a, b, h.list([]));
        }
      case Leave(e) =>
        if !op.Safe() {
          HandlersApart(h, code, live, s, i, a, b, e);
        } else {
          SafeOpsStay(h, op, args, w);
          DepartEnds(h, code.pcs, Fault(op.why), w, a, b);
        }
    } else {
      SkipApart(h, code, live, s, i, a, b);
    }
  }

  lemma JumpsDefineNothing(op: Op)
    ensures op.Jumps() ==> !op.HasDest()
  {
  }

  lemma SkipApart<V, W>(h: Host<V, W>, code: Code, live: seq<set<Reg>>, s: Site, i: nat, a: seq<V>, b: seq<V>)
    requires Sound(code, live, s) && i < |code.ops| && i != s.i1 && i != s.i2 && i != s.i3 && !code.keep[i]
    requires code.Fits(|a|) && |a| == |b| && Apart(h, code, live, s, i, a, b)
    ensures Apart(h, code, live, s, i + 1, a, b)
  {
    hide HandlerLive, Hidden;
    OtherOpQuiet(code, live, s, i);
    assert CoversAt(code, live, i);
  }

  lemma SameOperandsApart<V, W>(h: Host<V, W>, code: Code, live: seq<set<Reg>>, s: Site, i: nat, a: seq<V>, b: seq<V>)
    requires Sound(code, live, s) && code.Fits(|a|) && |a| == |b| <= TRACKED && Apart(h, code, live, s, i, a, b)
    requires i < |code.ops| && i != s.i1 && i != s.i2 && i != s.i3 && code.keep[i]
    ensures code.ops[i].WithinRegs(code.lists, |a|)
    ensures Fetch(a, code.ops[i].Reads(code.lists)) == Fetch(b, code.ops[i].Reads(code.lists))
  {
    hide Sound, HandlerLive, Hidden, Op.Reads, Op.Uses, Op.Targets;
    SoundLength(code, live, s);
    OtherOpQuiet(code, live, s, i);
    SameOperands(code.ops[i], code.lists, live[i] - Hidden(code, s, i), a, b);
  }

  lemma SoundLength(code: Code, live: seq<set<Reg>>, s: Site)
    requires Sound(code, live, s)
    ensures |code.ops| <= |live| && |code.keep| == |code.ops| && Shaped(code, s)
  {
  }

  /** What the three ops read and perform. */
  lemma SiteReads(code: Code, s: Site)
    requires Shaped(code, s)
    ensures code.ops[s.i1].ListFits(code.lists) && code.ops[s.i1].Reads(code.lists) == Elements(code, s)
    ensures code.ops[s.i2].ListFits(code.lists) && code.ops[s.i2].Reads(code.lists) == [Receiver(code, s), Inner(code, s)]
    ensures var op := code.ops[s.i3];
            op.ListFits(code.lists) && op.Reads(code.lists) == [op.f, op.t, op.arr]
    ensures |code.keep| == |code.ops| ==>
              var op, op' := code.ops[s.i3], Fused(code, s).ops[s.i3];
              && op'.ApplyL? && op'.d == op.d && op'.ListFits(code.lists)
              && op'.Reads(code.lists) == [op.f, op.t, Receiver(code, s)] + Elements(code, s)
  {
  }

  lemma InUses(op: Op, lists: seq<Reg>, i: nat)
    requires op.ListFits(lists) && i < |op.Reads(lists)| && op.Reads(lists)[i] < TRACKED
    ensures op.Reads(lists)[i] in op.Uses(lists)
  {
    hide Op.Reads;
  }

  /** At the inner array: the old code builds it, the new code goes on. */
  lemma InnerSteps<V, W>(h: Host<V, W>, code: Code, s: Site, a: seq<V>, b: seq<V>, w: W)
    requires Shaped(code, s) && code.Fits(|a|) && |a| == |b| && code.keep[s.i1]
    requires code.ops[s.i1].d == Inner(code, s)
    ensures Inner(code, s) < |a| && Fused(code, s).Fits(|a|)
    ensures forall i :: 0 <= i < |Elements(code, s)| ==> Elements(code, s)[i] < |a|
    ensures Step(h, code, At(s.i1, a, w)) == At(s.i1 + 1, a[Inner(code, s) := h.list(Fetch(a, Elements(code, s)))], w)
    ensures Step(h, Fused(code, s), At(s.i1, b, w)) == At(s.i1 + 1, b, w)
  {
    hide Op.Reads, Op.WithinRegs;
    FusedFits(code, s, |a|);
    SiteFits(code, s, |a|);
    SiteReads(code, s);
    StepIsNext(h, code, s.i1, a, w);
  }

  lemma InnerApart<V, W>(h: Host<V, W>, code: Code, live: seq<set<Reg>>, s: Site, a: seq<V>, b: seq<V>)
    requires Sound(code, live, s) && code.Fits(|a|) && |a| == |b| <= TRACKED && Apart(h, code, live, s, s.i1, a, b)
    ensures Inner(code, s) < |a|
    ensures forall i :: 0 <= i < |Elements(code, s)| ==> Elements(code, s)[i] < |a|
    ensures Apart(h, code, live, s, s.i1 + 1, a[Inner(code, s) := h.list(Fetch(a, Elements(code, s)))], b)
  {
    hide HandlerLive, Op.Targets, Op.Reads, Op.Uses, Op.WithinRegs, Registers, Op.HasDest;
    SiteFits(code, s, |a|);
    SiteReads(code, s);
    var op, elems := code.ops[s.i1], Elements(code, s);
    assert CoversAt(code, live, s.i1);
    forall i | 0 <= i < |elems| ensures a[elems[i]] == b[elems[i]] {
      InUses(op, code.lists, i);
    }
    assert Fetch(a, elems) == Fetch(b, elems);
    assert LiveAt(live, |code.ops|, s.i1 + 1) - {op.d} <= live[s.i1];
  }

  lemma InnerOp<V, W>(h: Host<V, W>, code: Code, live: seq<set<Reg>>, s: Site, a: seq<V>, b: seq<V>, w: W)
    requires Sound(code, live, s) && code.Fits(|a|) && |a| == |b| <= TRACKED && Apart(h, code, live, s, s.i1, a, b)
    ensures Fused(code, s).Fits(|a|)
    ensures Related(h, code, live, s, Step(h, code, At(s.i1, a, w)), Step(h, Fused(code, s), At(s.i1, b, w)))
  {
    hide Step, Apart, Covers, HandlerLive, Harmless, Op.Reads, Op.WithinRegs, Fused;
    InnerSteps(h, code, s, a, b, w);
    InnerApart(h, code, live, s, a, b);
  }

  /** At the outer array. */
  lemma OuterSteps<V, W>(h: Host<V, W>, code: Code, s: Site, a: seq<V>, b: seq<V>, w: W)
    requires Shaped(code, s) && code.Fits(|a|) && |a| == |b| && code.keep[s.i2]
    requires code.ops[s.i2].d == Outer(code, s)
    ensures Outer(code, s) < |a| && Inner(code, s) < |a| && Receiver(code, s) < |a| && Fused(code, s).Fits(|a|)
    ensures Step(h, code, At(s.i2, a, w)) == At(s.i2 + 1, a[Outer(code, s) := h.list([a[Receiver(code, s)], a[Inner(code, s)]])], w)
    ensures Step(h, Fused(code, s), At(s.i2, b, w)) == At(s.i2 + 1, b, w)
  {
    hide Op.Reads, Op.WithinRegs;
    FusedFits(code, s, |a|);
    SiteFits(code, s, |a|);
    SiteReads(code, s);
    StepIsNext(h, code, s.i2, a, w);
    assert Fetch(a, code.ops[s.i2].Reads(code.lists)) == [a[Receiver(code, s)], a[Inner(code, s)]];
  }

  lemma OuterApart<V, W>(h: Host<V, W>, code: Code, live: seq<set<Reg>>, s: Site, a: seq<V>, b: seq<V>)
    requires Sound(code, live, s) && code.Fits(|a|) && |a| == |b| <= TRACKED && Apart(h, code, live, s, s.i2, a, b)
    ensures Outer(code, s) < |a| && Inner(code, s) < |a| && Receiver(code, s) < |a|
    ensures Apart(h, code, live, s, s.i2 + 1, a[Outer(code, s) := h.list([a[Receiver(code, s)], a[Inner(code, s)]])], b)
  {
    hide HandlerLive, Op.Targets, Op.Reads, Op.Uses, Op.WithinRegs, Code.Fits;
    SiteFits(code, s, |a|);
    SiteReads(code, s);
    var op := code.ops[s.i2];
    assert CoversAt(code, live, s.i2);
    InUses(op, code.lists, 0);
    assert a[Receiver(code, s)] == b[Receiver(code, s)];
    assert LiveAt(live, |code.ops|, s.i2 + 1) - {op.d} <= live[s.i2];
  }

  lemma OuterOp<V, W>(h: Host<V, W>, code: Code, live: seq<set<Reg>>, s: Site, a: seq<V>, b: seq<V>, w: W)
    requires Sound(code, live, s) && code.Fits(|a|) && |a| == |b| <= TRACKED && Apart(h, code, live, s, s.i2, a, b)
    ensures Fused(code, s).Fits(|a|)
    ensures Related(h, code, live, s, Step(h, code, At(s.i2, a, w)), Step(h, Fused(code, s), At(s.i2, b, w)))
  {
    hide Step, Apart, Covers, HandlerLive, Harmless, Op.Reads, Op.WithinRegs, Fused;
    OuterSteps(h, code, s, a, b, w);
    OuterApart(h, code, live, s, a, b);
  }

  /** At the call: the old code applies the arrays, the new code the registers they came from. */
  lemma CallOperands<V, W>(h: Host<V, W>, code: Code, live: seq<set<Reg>>, s: Site, a: seq<V>, b: seq<V>)
    requires Sound(code, live, s) && code.Fits(|a|) && |a| == |b| <= TRACKED && Apart(h, code, live, s, s.i3, a, b)
    ensures Receiver(code, s) < |a| && Outer(code, s) < |a| && code.ops[s.i3].f < |a| && code.ops[s.i3].t < |a|
    ensures forall i :: 0 <= i < |Elements(code, s)| ==> Elements(code, s)[i] < |a|
    ensures a[code.ops[s.i3].f] == b[code.ops[s.i3].f] && a[code.ops[s.i3].t] == b[code.ops[s.i3].t]
    ensures a[Outer(code, s)] == h.list([b[Receiver(code, s)], h.list(Fetch(b, Elements(code, s)))])
  {
    hide HandlerLive, Op.Targets, Op.Reads, Op.Uses;
    SiteFits(code, s, |a|);
    SiteReads(code, s);
    var op := code.ops[s.i3];
    assert CoversAt(code, live, s.i3);
    assert op.WithinRegs(code.lists, |a|);
    assert op.Reads(code.lists)[0] == op.f && op.Reads(code.lists)[1] == op.t;
    InUses(op, code.lists, 0);
    InUses(op, code.lists, 1);
  }

  lemma CallActs<V, W>(h: Host<V, W>, code: Code, s: Site, a: seq<V>, b: seq<V>, w: W)
    requires Shaped(code, s) && code.Fits(|a|) && |a| == |b| && code.keep[s.i3]
    requires Receiver(code, s) < |a| && Outer(code, s) < |a| && code.ops[s.i3].f < |a| && code.ops[s.i3].t < |a|
    requires forall i :: 0 <= i < |Elements(code, s)| ==> Elements(code, s)[i] < |a|
    requires a[code.ops[s.i3].f] == b[code.ops[s.i3].f] && a[code.ops[s.i3].t] == b[code.ops[s.i3].t]
    requires a[Outer(code, s)] == h.list([b[Receiver(code, s)], h.list(Fetch(b, Elements(code, s)))])
    requires s.i1 != s.i3 && s.i2 != s.i3
    ensures Fused(code, s).Fits(|a|) && code.ops[s.i3].d < |a|
    ensures var call := h.act(Apply(0, 0, 0, 0), [a[code.ops[s.i3].f], a[code.ops[s.i3].t], a[Outer(code, s)]], w);
            && Step(h, code, At(s.i3, a, w)) == Next(h, code.pcs, code.ops[s.i3], s.i3, a, FromEffect(call))
            && Step(h, Fused(code, s), At(s.i3, b, w)) == Next(h, code.pcs, code.ops[s.i3], s.i3, b, FromEffect(call))
  {
    hide Op.Reads, Op.WithinRegs, Depart, Perform, Step, Fused;
    FusedFits(code, s, |a|);
    SiteReads(code, s);
    FusedParts(code, s);
    var op, op' := code.ops[s.i3], Fused(code, s).ops[s.i3];
    StepIsNext(h, code, s.i3, a, w);
    StepIsNext(h, Fused(code, s), s.i3, b, w);
    FitsDest(op, code.lists, |a|);
    var th, elems := Receiver(code, s), Elements(code, s);
    var args, args' := Fetch(a, op.Reads(code.lists)), Fetch(b, op'.Reads(code.lists));
    assert args == [a[op.f], a[op.t], a[op.arr]];
    assert args' == [b[op.f], b[op.t], b[th]] + Fetch(b, elems);
    ApplyPerforms(h, op, args, w);
    ApplyLPerforms(h, op', b[op.f], b[op.t], b[th], Fetch(b, elems), w);
  }

  lemma FusedParts(code: Code, s: Site)
    requires Shaped(code, s) && |code.keep| == |code.ops|
    ensures var rewritten := Fused(code, s);
            && |rewritten.ops| == |code.ops| == |rewritten.keep| && rewritten.lists == code.lists && rewritten.pcs == code.pcs
            && rewritten.keep[s.i3] == code.keep[s.i3]
  {
  }

  lemma ApplyPerforms<V, W>(h: Host<V, W>, op: Op, args: seq<V>, w: W)
    requires op.Apply?
    ensures Perform(h, op, args, w) == FromEffect(h.act(Apply(0, 0, 0, 0), args, w))
  {
  }

  lemma ApplyLPerforms<V, W>(h: Host<V, W>, op: Op, f: V, t: V, th: V, elems: seq<V>, w: W)
    requires op.ApplyL?
    ensures Perform(h, op, [f, t, th] + elems, w) == FromEffect(h.act(Apply(0, 0, 0, 0), [f, t, h.list([th, h.list(elems)])], w))
  {
    assert ([f, t, th] + elems)[3..] == elems;
  }

  lemma FitsDest(op: Op, lists: seq<Reg>, nregs: nat)
    requires op.WithinRegs(lists, nregs) && op.HasDest()
    ensures op.d < nregs
  {
  }

  lemma CallApart<V, W>(h: Host<V, W>, code: Code, live: seq<set<Reg>>, s: Site, a: seq<V>, b: seq<V>, v: V)
    requires Sound(code, live, s) && code.Fits(|a|) && |a| == |b| <= TRACKED && Apart(h, code, live, s, s.i3, a, b)
    ensures code.ops[s.i3].d < |a|
    ensures Apart(h, code, live, s, s.i3 + 1, a[code.ops[s.i3].d := v], b[code.ops[s.i3].d := v])
  {
    hide HandlerLive, Op.Targets, Op.Reads, Op.Uses;
    SiteFits(code, s, |a|);
    var op := code.ops[s.i3];
    assert CoversAt(code, live, s.i3) && op.WithinRegs(code.lists, |a|);
    assert LiveAt(live, |code.ops|, s.i3 + 1) - {op.d} <= live[s.i3] - Hidden(code, s, s.i3);
  }

  lemma CallOp<V, W>(h: Host<V, W>, code: Code, live: seq<set<Reg>>, s: Site, a: seq<V>, b: seq<V>, w: W)
    requires Sound(code, live, s) && Sealed(code, s)
    requires code.Fits(|a|) && |a| == |b| <= TRACKED && Apart(h, code, live, s, s.i3, a, b)
    ensures Fused(code, s).Fits(|a|)
    ensures Related(h, code, live, s, Step(h, code, At(s.i3, a, w)), Step(h, Fused(code, s), At(s.i3, b, w)))
  {
    hide Step, Apart, Covers, HandlerLive, Harmless, Op.Reads, Op.WithinRegs, Fused, Sealed, Depart;
    CallOperands(h, code, live, s, a, b);
    CallActs(h, code, s, a, b, w);
    var op := code.ops[s.i3];
    var call := h.act(Apply(0, 0, 0, 0), [a[op.f], a[op.t], a[Outer(code, s)]], w);
    match FromEffect(call)
    case Value(v, w') =>
      CallApart(h, code, live, s, a, b, v);
    case Leave(e) =>
      HandlersApart(h, code, live, s, s.i3, a, b, e);
  }

  // ----- Whole runs -----

  lemma {:induction false} FusedRun<V, W>(h: Host<V, W>, code: Code, live: seq<set<Reg>>, s: Site, x: State<V, W>, y: State<V, W>, n: nat)
    requires Sound(code, live, s) && Sealed(code, s) && ExitsSafe(code, live, s)
    requires Related(h, code, live, s, x, y) && (x.At? ==> |x.regs| <= TRACKED)
    ensures x.At? ==> Fused(code, s).Fits(|x.regs|)
    ensures Related(h, code, live, s, Run(h, code, x, n), Run(h, Fused(code, s), y, n))
    decreases n
  {
    hide Sound, Sealed, ExitsSafe, Apart, Step, Fused;
    SoundLength(code, live, s);
    if x.At? {
      FusedFits(code, s, |x.regs|);
    }
    if n > 0 {
      FusedStep(h, code, live, s, x, y);
      assert x.Ended? ==> Step(h, code, x) == x by { StepEnded(h, code, x); }
      FusedRun(h, code, live, s, Step(h, code, x), Step(h, Fused(code, s), y), n - 1);
    }
  }

  lemma StepEnded<V, W>(h: Host<V, W>, code: Code, x: State<V, W>)
    requires x.At? ==> code.Fits(|x.regs|)
    ensures x.Ended? ==> Step(h, code, x) == x
  {
  }

  lemma FusedStep<V, W>(h: Host<V, W>, code: Code, live: seq<set<Reg>>, s: Site, x: State<V, W>, y: State<V, W>)
    requires Sound(code, live, s) && Sealed(code, s) && ExitsSafe(code, live, s)
    requires Related(h, code, live, s, x, y) && (x.At? ==> |x.regs| <= TRACKED)
    ensures x.At? ==> Fused(code, s).Fits(|x.regs|)
    ensures Related(h, code, live, s, Step(h, code, x), Step(h, Fused(code, s), y))
  {
    hide Sound, Sealed, ExitsSafeAt, Apart;
    SoundLength(code, live, s);
    if x.At? {
      FusedFits(code, s, |x.regs|);
      if x.ip < |code.ops| {
        if x.ip == s.i1 {
          InnerOp(h, code, live, s, x.regs, y.regs, x.w);
        } else if x.ip == s.i2 {
          OuterOp(h, code, live, s, x.regs, y.regs, x.w);
        } else if x.ip == s.i3 {
          CallOp(h, code, live, s, x.regs, y.regs, x.w);
        } else {
          OtherOp(h, code, live, s, x.ip, x.regs, y.regs, x.w);
        }
      }
    }
  }

  /** Starting outside the stretch, the old and the new code end at the same step, the same way. */
  lemma FusionPreserves<V, W>(h: Host<V, W>, code: Code, live: seq<set<Reg>>, s: Site, x: State<V, W>, n: nat)
    requires Sound(code, live, s) && Sealed(code, s) && ExitsSafe(code, live, s)
    requires x.At? ==> code.Fits(|x.regs|) && |x.regs| <= TRACKED && !Inside(s, x.ip)
    ensures x.At? ==> Fused(code, s).Fits(|x.regs|)
    ensures var t, u := Run(h, code, x, n), Run(h, Fused(code, s), x, n);
            (t.Ended? || u.Ended?) ==> t == u
  {
    hide Sound, Sealed, ExitsSafe;
    SoundLength(code, live, s);
    if x.At? {
      SiteFits(code, s, |x.regs|);
    }
    FusedRun(h, code, live, s, x, x, n);
  }

  // ----- Liveness after fusion -----

  /** In the stretch the arrays are no longer live, but what they were built from is. */
  ghost function Widened(code: Code, live: seq<set<Reg>>, s: Site): (r: seq<set<Reg>>)
    requires Shaped(code, s)
    ensures |r| == |live|
  {
    seq(|live|, ip requires 0 <= ip < |live| =>
      if Inside(s, ip) then live[ip] - Hidden(code, s, ip) + (set e | e in Elements(code, s)) + (if ip > s.i2 then {Receiver(code, s)} else {})
      else live[ip])
  }

  lemma {:induction false} SameHandlers(code: Code, live: seq<set<Reg>>, s: Site, pcs: seq<(nat, nat)>)
    requires Shaped(code, s) && |code.ops| <= |live|
    requires forall i :: 0 <= i < |pcs| ==> !Inside(s, pcs[i].1)
    ensures HandlerLive(pcs, Widened(code, live, s), |code.ops|) == HandlerLive(pcs, live, |code.ops|)
  {
    if pcs != [] {
      assert !Inside(s, pcs[0].1);
      SameHandlers(code, live, s, pcs[1..]);
    }
  }

  lemma WidenedCovers(code: Code, live: seq<set<Reg>>, s: Site)
    requires Sound(code, live, s) && Sealed(code, s) && ExitsSafe(code, live, s)
    ensures Covers(Fused(code, s), Widened(code, live, s))
  {
    hide Sound, Sealed, ExitsSafe, CoversAt, Fused, Widened;
    SoundLength(code, live, s);
    FusedParts(code, s);
    forall i | 0 <= i < |code.ops|
      ensures Fused(code, s).ops[i].ListFits(code.lists) && CoversAt(Fused(code, s), Widened(code, live, s), i)
    {
      if i == s.i1 {
        WidenedAtInner(code, live, s);
      } else if i == s.i2 {
        WidenedAtOuter(code, live, s);
      } else if i == s.i3 {
        WidenedAtCall(code, live, s);
      } else {
        WidenedAtOther(code, live, s, i);
      }
    }
  }

  lemma WidenedAtInner(code: Code, live: seq<set<Reg>>, s: Site)
    requires Sound(code, live, s)
    ensures |Fused(code, s).ops| == |code.ops| == |Fused(code, s).keep|
    ensures Fused(code, s).ops[s.i1].ListFits(code.lists) && CoversAt(Fused(code, s), Widened(code, live, s), s.i1)
  {
    hide HandlerLive, Op.Targets, Op.Reads;
    SiteReads(code, s);
    var op, n, wide := code.ops[s.i1], |code.ops|, Widened(code, live, s);
    assert CoversAt(code, live, s.i1);
    forall e | e in Elements(code, s) ensures e in live[s.i1] {
      var k :| 0 <= k < |Elements(code, s)| && Elements(code, s)[k] == e;
      InUses(op, code.lists, k);
    }
    assert LiveAt(live, n, s.i1 + 1) - {op.d} <= live[s.i1];
    assert LiveAt(wide, n, s.i1 + 1) <= wide[s.i1];
  }

  lemma WidenedAtOuter(code: Code, live: seq<set<Reg>>, s: Site)
    requires Sound(code, live, s)
    ensures |Fused(code, s).ops| == |code.ops| == |Fused(code, s).keep|
    ensures Fused(code, s).ops[s.i2].ListFits(code.lists) && CoversAt(Fused(code, s), Widened(code, live, s), s.i2)
  {
    hide HandlerLive, Op.Targets, Op.Reads, Op.Uses;
    SiteReads(code, s);
    var op, n, wide := code.ops[s.i2], |code.ops|, Widened(code, live, s);
    assert CoversAt(code, live, s.i2);
    InUses(op, code.lists, 0);
    assert Receiver(code, s) in live[s.i2];
    assert LiveAt(live, n, s.i2 + 1) - {op.d} <= live[s.i2];
    assert LiveAt(wide, n, s.i2 + 1) <= wide[s.i2];
  }

  lemma WidenedAtCall(code: Code, live: seq<set<Reg>>, s: Site)
    requires Sound(code, live, s) && Sealed(code, s)
    ensures |Fused(code, s).ops| == |code.ops| == |Fused(code, s).keep|
    ensures Fused(code, s).ops[s.i3].ListFits(code.lists) && CoversAt(Fused(code, s), Widened(code, live, s), s.i3)
  {
    hide HandlerLive, Op.Reads, Op.Uses, Registers, Harmless;
    WidenedUses(code, live, s);
    SameHandlers(code, live, s, code.pcs);
    assert CoversAt(code, live, s.i3);
    assert LiveAt(live, |code.ops|, s.i3 + 1) - Tracked(code.ops[s.i3].Def()) <= live[s.i3];
  }

  lemma WidenedUses(code: Code, live: seq<set<Reg>>, s: Site)
    requires Sound(code, live, s)
    ensures |Fused(code, s).ops| == |code.ops| && Fused(code, s).ops[s.i3].ListFits(code.lists)
    ensures Fused(code, s).ops[s.i3].Uses(code.lists) <= Widened(code, live, s)[s.i3]
  {
    hide HandlerLive, Op.Reads, Op.Uses, Op.Targets, Harmless;
    SiteReads(code, s);
    var op, op', wide := code.ops[s.i3], Fused(code, s).ops[s.i3], Widened(code, live, s);
    assert CoversAt(code, live, s.i3);
    if op.f < TRACKED {
      InUses(op, code.lists, 0);
    }
    if op.t < TRACKED {
      InUses(op, code.lists, 1);
    }
    forall r | r in op'.Uses(code.lists) ensures r in wide[s.i3] {
      UsesAreReads(op', code.lists, r);
    }
  }

  lemma UsesAreReads(op: Op, lists: seq<Reg>, r: Reg)
    requires op.ListFits(lists) && r in op.Uses(lists)
    ensures r in op.Reads(lists) && r < TRACKED
  {
    hide Op.Reads;
  }

  lemma WidenedAtOther(code: Code, live: seq<set<Reg>>, s: Site, i: nat)
    requires Sound(code, live, s) && Sealed(code, s) && ExitsSafe(code, live, s)
    requires i < |code.ops| && i != s.i1 && i != s.i2 && i != s.i3
    ensures |Fused(code, s).ops| == |code.ops| == |Fused(code, s).keep|
    ensures Fused(code, s).ops[i].ListFits(code.lists) && CoversAt(Fused(code, s), Widened(code, live, s), i)
  {
    hide HandlerLive, Op.Reads, Op.Uses, Op.Targets, Op.Safe, Op.Falls, Op.Leaves;
    OtherOpQuiet(code, live, s, i);
    SameHandlers(code, live, s, code.pcs);
    var op, n, wide := code.ops[i], |code.ops|, Widened(code, live, s);
    assert CoversAt(code, live, i);
    assert Fused(code, s).ops[i] == op && Fused(code, s).keep[i] == code.keep[i];
    forall t | code.keep[i] && t in op.Targets() ensures LiveAt(wide, n, t) <= wide[i] {
      assert !Inside(s, t);
      assert LiveAt(live, n, t) <= live[i];
      assert s.i1 < i < s.i3 ==> ExitsSafeAt(code, live, s, i);
    }
  }

  // ----- One fusion after another -----

  /** A solution that still covers the code after some fusions: where control can be sent, and from
      op `bound` on, it is the one liveness was computed with. */
  ghost predicate Carries(code: Code, live: seq<set<Reg>>, now: seq<set<Reg>>, target: seq<bool>, bound: nat) {
    && Covers(code, now) && |now| == |live| >= |target| == |code.ops| + 1
    && forall t :: 0 <= t < |code.ops| && (target[t] || t >= bound) ==> now[t] == live[t]
  }

  lemma {:induction false} SameAtTargets(pcs: seq<(nat, nat)>, live: seq<set<Reg>>, now: seq<set<Reg>>, n: nat, target: seq<bool>)
    requires n <= |live| == |now| && |target| == n + 1
    requires forall i :: 0 <= i < |pcs| && pcs[i].1 < |target| ==> target[pcs[i].1]
    requires forall t :: 0 <= t < n && target[t] ==> now[t] == live[t]
    ensures HandlerLive(pcs, now, n) == HandlerLive(pcs, live, n)
  {
    if pcs != [] {
      assert pcs[0].1 < n ==> target[pcs[0].1];
      SameAtTargets(pcs[1..], live, now, n, target);
    }
  }

  lemma FusibleIsSealed(code: Code, target: seq<bool>, after: set<Reg>, entry: nat, s: Site)
    requires |code.keep| == |code.ops| && MarksTargets(code.ops, code.pcs, entry, target)
    requires forall k :: 0 <= k < |code.ops| ==> code.ops[k].ListFits(code.lists)
    requires Fusible(code, target, after, s)
    ensures Sealed(code, s) && !Inside(s, entry)
    ensures forall t: nat :: Inside(s, t) ==> t < |target| && !target[t]
  {
    hide Op.Targets, Op.ListFits, Harmless;
    forall t: nat | Inside(s, t) ensures t < |target| && !target[t] {
    }
  }

  lemma FusibleIsSound(code: Code, live: seq<set<Reg>>, now: seq<set<Reg>>, target: seq<bool>, entry: nat, s: Site, bound: nat)
    requires |code.keep| == |code.ops| && MarksTargets(code.ops, code.pcs, entry, target)
    requires Carries(code, live, now, target, bound) && bound <= s.i3 + 1 <= |code.ops| && |live| == |code.ops| + 2
    requires Fusible(code, target, live[s.i3 + 1] + HandlerLive(code.pcs, live, |code.ops|), s)
    requires ExitsSafe(code, live, s)
    ensures Sound(code, now, s) && ExitsSafe(code, now, s)
  {
    hide HandlerLive, Op.Targets, Harmless, CoversAt, Op.ListFits;
    SameAtTargets(code.pcs, live, now, |code.ops|, target);
    var n := |code.ops|;
    assert LiveAt(now, n, s.i3 + 1) <= live[s.i3 + 1];
    forall j, t | s.i1 < j < s.i3 && code.keep[j] && t in code.ops[j].Targets()
      ensures LiveAt(now, n, t) !! Hidden(code, s, j)
    {
      assert ExitsSafeAt(code, live, s, j);
      assert t < n ==> target[t];
    }
  }

  lemma FusionCarries(code: Code, live: seq<set<Reg>>, now: seq<set<Reg>>, target: seq<bool>, after: set<Reg>, entry: nat, s: Site, bound: nat)
    requires |code.keep| == |code.ops| && MarksTargets(code.ops, code.pcs, entry, target)
    requires Carries(code, live, now, target, bound) && bound <= s.i3 + 1
    requires Sound(code, now, s) && Sealed(code, s) && ExitsSafe(code, now, s)
    requires forall t: nat :: Inside(s, t) ==> t < |target| && !target[t]
    ensures Carries(Fused(code, s), live, Widened(code, now, s), target, s.i3 + 1)
    ensures MarksTargets(Fused(code, s).ops, code.pcs, entry, target)
  {
    hide HandlerLive, Harmless, CoversAt, Op.ListFits, Sound, Sealed, ExitsSafe;
    SoundLength(code, now, s);
    FusedParts(code, s);
    WidenedCovers(code, now, s);
    var rewritten := Fused(code, s);
    assert forall i :: 0 <= i < |code.ops| ==> rewritten.ops[i].Targets() == code.ops[i].Targets();
  }

  /** The codes of a series of fusions, each found fusible in its turn, from front to back. */
  ghost predicate Series(live: seq<set<Reg>>, target: seq<bool>, codes: seq<Code>, sites: seq<Site>) {
    && |codes| == |sites| + 1
    && forall k :: 0 <= k < |sites| ==> SeriesAt(live, target, codes, sites, k)
  }

  ghost predicate SeriesAt(live: seq<set<Reg>>, target: seq<bool>, codes: seq<Code>, sites: seq<Site>, k: nat)
    requires |codes| == |sites| + 1 && k < |sites|
  {
    var code := codes[k];
    && |code.keep| == |code.ops| && |target| == |code.ops| + 1 && |live| == |code.ops| + 2
    && (forall i :: 0 <= i < |code.ops| ==> code.ops[i].ListFits(code.lists))
    && sites[k].i3 < |code.ops|
    && Fusible(code, target, live[sites[k].i3 + 1] + HandlerLive(code.pcs, live, |code.ops|), sites[k])
    && codes[k + 1] == Fused(code, sites[k])
    && (k > 0 ==> sites[k - 1].i3 < sites[k].i3)
  }

  /** The hypothesis for the whole series. */
  ghost predicate AllExitsSafe(live: seq<set<Reg>>, codes: seq<Code>, sites: seq<Site>) {
    forall k :: 0 <= k < |sites| && k < |codes| ==>
      && Shaped(codes[k], sites[k]) && |codes[k].ops| <= |live| && |codes[k].keep| == |codes[k].ops|
      && ExitsSafe(codes[k], live, sites[k])
  }

  lemma {:induction false} SeriesCarries(live: seq<set<Reg>>, target: seq<bool>, entry: nat, codes: seq<Code>, sites: seq<Site>, k: nat)
    returns (now: seq<set<Reg>>)
    requires Series(live, target, codes, sites) && AllExitsSafe(live, codes, sites) && k <= |sites|
    requires |codes[0].keep| == |codes[0].ops| && |live| == |codes[0].ops| + 2
    requires MarksTargets(codes[0].ops, codes[0].pcs, entry, target) && Covers(codes[0], live)
    ensures Carries(codes[k], live, now, target, if k == 0 then 0 else sites[k - 1].i3 + 1)
    ensures |codes[k].keep| == |codes[k].ops| == |codes[0].ops| && codes[k].pcs == codes[0].pcs
    ensures MarksTargets(codes[k].ops, codes[k].pcs, entry, target)
  {
    hide Covers, MarksTargets, Fusible, ExitsSafe, HandlerLive, Sound, Sealed, Op.ListFits, Widened, Fused;
    if k == 0 {
      now := live;
      MarkedLength(codes[0].ops, codes[0].pcs, entry, target);
    } else {
      var was := SeriesCarries(live, target, entry, codes, sites, k - 1);
      assert SeriesAt(live, target, codes, sites, k - 1);
      var code, s := codes[k - 1], sites[k - 1];
      var bound := if k == 1 then 0 else sites[k - 2].i3 + 1;
      FusibleIsSealed(code, target, live[s.i3 + 1] + HandlerLive(code.pcs, live, |code.ops|), entry, s);
      FusibleIsSound(code, live, was, target, entry, s, bound);
      FusionCarries(code, live, was, target, {}, entry, s, bound);
      FusedParts(code, s);
      now := Widened(code, was, s);
    }
  }

  lemma MarkedLength(ops: seq<Op>, pcs: seq<(nat, nat)>, entry: nat, target: seq<bool>)
    requires MarksTargets(ops, pcs, entry, target)
    ensures |target| == |ops| + 1
  {
  }

  /** All fusions together: run from the entry or any block, the code before and the code after
      end at the same step, the same way. */
  lemma {:induction false} SeriesPreserves<V, W>(h: Host<V, W>, live: seq<set<Reg>>, target: seq<bool>, entry: nat, start: nat,
                                                 codes: seq<Code>, sites: seq<Site>, k: nat, regs: seq<V>, w: W, n: nat)
    requires Series(live, target, codes, sites) && AllExitsSafe(live, codes, sites) && k <= |sites|
    requires |codes[0].keep| == |codes[0].ops| && |live| == |codes[0].ops| + 2
    requires MarksTargets(codes[0].ops, codes[0].pcs, entry, target) && Covers(codes[0], live)
    requires codes[0].Fits(|regs|) && |regs| <= TRACKED && (start < |target| ==> target[start])
    ensures codes[k].Fits(|regs|)
    ensures var t, u := Run(h, codes[0], At(start, regs, w), n), Run(h, codes[k], At(start, regs, w), n);
            (t.Ended? || u.Ended?) ==> t == u
  {
    hide Covers, MarksTargets, Fusible, ExitsSafe, HandlerLive, Sound, Sealed, Op.ListFits, Widened, Fused, Code.Fits;
    if k > 0 {
      SeriesPreserves(h, live, target, entry, start, codes, sites, k - 1, regs, w, n);
      var was := SeriesCarries(live, target, entry, codes, sites, k - 1);
      assert SeriesAt(live, target, codes, sites, k - 1);
      var code, s := codes[k - 1], sites[k - 1];
      FusibleIsSealed(code, target, live[s.i3 + 1] + HandlerLive(code.pcs, live, |code.ops|), entry, s);
      FusibleIsSound(code, live, was, target, entry, s, if k == 1 then 0 else sites[k - 2].i3 + 1);
      FusionPreserves(h, code, was, s, At(start, regs, w), n);
    }
  }
}
