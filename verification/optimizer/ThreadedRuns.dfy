/** Threading and compaction preserve every run: one op of the new code is one or more of the old. */
module ThreadedRuns {
  import opened Basics
  import opened Bytecode
  import opened Machine
  import opened Threading

  /** What the passes make of the masked code `old`. */
  ghost predicate Rewritten(source: Code, threaded: seq<Op>, left: seq<bool>, fin: seq<nat>, code: Code) {
    && |source.keep| == |source.ops|
    && Threaded(source.ops, source.keep, threaded)
    && Pruned(threaded, source.keep, left, fin) && Table(left, fin)
    && Compacted(threaded, left, fin, code.ops) && PcsPlaced(left, fin, source.pcs, code.pcs)
    && code.lists == source.lists
    && |code.keep| == |code.ops| && forall i :: 0 <= i < |code.keep| ==> code.keep[i]
  }

  /** In the same state, at corresponding places. */
  ghost predicate Matches<V, W>(left: seq<bool>, fin: seq<nat>, s: State<V, W>, t: State<V, W>)
    requires Table(left, fin)
  {
    match (s, t)
    case (At(i, a, w), At(j, b, x)) => j == Place(left, fin, i) && a == b && w == x
    case (Ended(_, _), Ended(_, _)) => s == t
    case _ => false
  }

  // ----- Ops that only move the instruction pointer -----

  /** The old code gets from op i to op j without touching registers or world. */
  ghost predicate Glides(code: Code, i: nat, j: nat, k: nat)
    requires |code.keep| == |code.ops|
    decreases k
  {
    if k == 0 then i == j
    else
      i < |code.ops|
      && (if !code.keep[i] then Glides(code, i + 1, j, k - 1)
          else code.ops[i].J? && Glides(code, code.ops[i].to, j, k - 1))
  }

  lemma {:induction false} GlidesAppend(code: Code, i: nat, j: nat, l: nat, m: nat, n: nat)
    requires |code.keep| == |code.ops| && Glides(code, i, j, m) && Glides(code, j, l, n)
    ensures Glides(code, i, l, m + n)
    decreases m
  {
    if m > 0 {
      GlidesAppend(code, if !code.keep[i] then i + 1 else code.ops[i].to, j, l, m - 1, n);
    }
  }

  lemma {:induction false} GlideRuns<V, W>(h: Host<V, W>, code: Code, i: nat, j: nat, k: nat, regs: seq<V>, w: W)
    requires code.Fits(|regs|) && Glides(code, i, j, k)
    ensures Run(h, code, At(i, regs, w), k) == At(j, regs, w)
    decreases k
  {
    if k > 0 {
      var next := if !code.keep[i] then i + 1 else code.ops[i].to;
      JumpSteps(h, code, i, regs, w);
      GlideRuns(h, code, next, j, k - 1, regs, w);
    }
  }

  lemma JumpSteps<V, W>(h: Host<V, W>, code: Code, i: nat, regs: seq<V>, w: W)
    requires code.Fits(|regs|) && i < |code.ops| && (code.keep[i] ==> code.ops[i].J?)
    ensures Step(h, code, At(i, regs, w)) == At(if code.keep[i] then code.ops[i].to else i + 1, regs, w)
  {
  }

  lemma {:induction false} GlidesToKept(code: Code, t: nat) returns (k: nat)
    requires |code.keep| == |code.ops| && t <= |code.ops|
    ensures Glides(code, t, NextKept(code.keep, t), k)
    decreases |code.ops| - t
  {
    if t == |code.ops| || code.keep[t] {
      k := 0;
    } else {
      k := GlidesToKept(code, t + 1);
      k := k + 1;
    }
  }

  /** A target beyond the code never comes back to it. */
  ghost predicate Lands(n: nat, u: nat, goal: nat) {
    u == goal || (u > n && goal == n)
  }

  lemma {:induction false} GlidesHops(code: Code, t: nat, hops: nat) returns (u: nat, k: nat)
    requires |code.keep| == |code.ops| && t <= |code.ops| && (t < |code.ops| ==> code.keep[t])
    ensures Glides(code, t, u, k) && Lands(|code.ops|, u, Hop(code.ops, code.keep, t, hops))
    decreases hops
  {
    u, k := t, 0;
    if hops > 0 && t < |code.ops| && code.ops[t].J? {
      var to := code.ops[t].to;
      var next := NextKept(code.keep, to);
      if next != t {
        if to > |code.ops| {
          u, k := to, 1;
          assert Hop(code.ops, code.keep, next, hops - 1) == |code.ops|;
        } else {
          var k1 := GlidesToKept(code, to);
          var k2;
          u, k2 := GlidesHops(code, next, hops - 1);
          GlidesAppend(code, to, next, u, k1, k2);
          k := 1 + (k1 + k2);
        }
      }
    }
  }

  lemma GlidesEff(code: Code, t: nat) returns (u: nat, k: nat)
    requires |code.keep| == |code.ops|
    ensures Glides(code, t, u, k) && Lands(|code.ops|, u, Eff(code.ops, code.keep, t))
  {
    if t > |code.ops| {
      u, k := t, 0;
    } else {
      var next := NextKept(code.keep, t);
      var k1 := GlidesToKept(code, t);
      var k2;
      u, k2 := GlidesHops(code, next, THREAD_HOPS);
      GlidesAppend(code, t, next, u, k1, k2);
      k := k1 + k2;
    }
  }

  lemma PrunedAt(code: Code, threaded: seq<Op>, left: seq<bool>, fin: seq<nat>, i: nat)
    requires |code.keep| == |code.ops| && Threaded(code.ops, code.keep, threaded)
    requires Pruned(threaded, code.keep, left, fin) && i < |code.ops|
    ensures |left| == |code.ops| && |fin| == |code.ops| + 1 && (left[i] ==> fin[i] == i && code.keep[i])
    ensures !left[i] ==> fin[i] == fin[i + 1]
    ensures !left[i] && code.keep[i] ==>
              var op := code.ops[i];
              op.J? && i < Eff(code.ops, code.keep, op.to) && fin[Eff(code.ops, code.keep, op.to)] == fin[i]
  {
    hide Eff;
    RetargetedFields(code.ops[i], Threader(code.ops, code.keep));
    assert PrunedOp(threaded, code.keep, left, fin, i);
  }

  /** From any op the old code gets to the first op that is left, or out of the code. */
  lemma {:induction false} GlidesToLeft(code: Code, threaded: seq<Op>, left: seq<bool>, fin: seq<nat>, i: nat) returns (u: nat, k: nat)
    requires |code.keep| == |code.ops| && Threaded(code.ops, code.keep, threaded)
    requires Pruned(threaded, code.keep, left, fin) && i <= |code.ops|
    ensures Glides(code, i, u, k) && Lands(|code.ops|, u, fin[i])
    decreases |code.ops| - i
  {
    hide Threaded, Eff, NextKept;
    u, k := i, 0;
    if i < |code.ops| {
      PrunedAt(code, threaded, left, fin, i);
      if !code.keep[i] {
        u, k := GlidesToLeft(code, threaded, left, fin, i + 1);
        k := k + 1;
      } else if !left[i] {
        var to := Eff(code.ops, code.keep, code.ops[i].to);
        var u1, k1 := GlidesEff(code, code.ops[i].to);
        if u1 == to {
          var k2;
          u, k2 := GlidesToLeft(code, threaded, left, fin, to);
          GlidesAppend(code, code.ops[i].to, to, u, k1, k2);
          k := 1 + (k1 + k2);
        } else {
          u, k := u1, 1 + k1;
        }
      }
    }
  }

  // ----- One op of the new code -----

  lemma SameReads(op: Op, f: nat -> nat, lists: seq<Reg>)
    requires op.ListFits(lists)
    ensures op.Retarget(f).ListFits(lists) && op.Retarget(f).Reads(lists) == op.Reads(lists)
    ensures op.Retarget(f).HasDest() == op.HasDest() && (op.HasDest() ==> op.Retarget(f).d == op.d)
  {
    RetargetedFields(op, f);
  }

  lemma SameAct<V, W>(h: Host<V, W>, op: Op, f: nat -> nat, lists: seq<Reg>, args: seq<V>, w: W)
    requires |args| >= Arity(op) && op.ListFits(lists)
    ensures op.Retarget(f).ListFits(lists) && op.Retarget(f).Reads(lists) == op.Reads(lists)
    ensures Arity(op.Retarget(f)) == Arity(op) && Perform(h, op.Retarget(f), args, w) == Perform(h, op, args, w)
    ensures op.Retarget(f).HasDest() == op.HasDest() && (op.HasDest() ==> op.Retarget(f).d == op.d)
    ensures op.Retarget(f).Jumps() == op.Jumps()
  {
    RetargetedFields(op, f);
  }

  lemma PlaceAfter(left: seq<bool>, fin: seq<nat>, threaded: seq<Op>, keep: seq<bool>, f: nat)
    requires Pruned(threaded, keep, left, fin) && Table(left, fin) && f < |left| && left[f]
    ensures Place(left, fin, f) == Count(left, f) && Place(left, fin, f + 1) == Count(left, f) + 1
  {
    FinWithin(threaded, keep, left, fin, f + 1);
    assert PrunedOp(threaded, keep, left, fin, f);
  }

  lemma {:induction false} FindPlaced(left: seq<bool>, fin: seq<nat>, pcs: seq<(nat, nat)>, placed: seq<(nat, nat)>, pc: nat)
    requires Table(left, fin) && PcsPlaced(left, fin, pcs, placed)
    ensures FindPc(placed, pc) == match FindPc(pcs, pc) case Some(t) => Some(Place(left, fin, t)) case None => None
  {
    if pcs != [] {
      FindPlaced(left, fin, pcs[1..], placed[1..], pc);
    }
  }

  lemma DepartsMatching<V, W>(h: Host<V, W>, left: seq<bool>, fin: seq<nat>, pcs: seq<(nat, nat)>, placed: seq<(nat, nat)>, e: Exit<V, W>, regs: seq<V>)
    requires Table(left, fin) && PcsPlaced(left, fin, pcs, placed)
    ensures Matches(left, fin, Depart(h, pcs, e, regs), Depart(h, placed, e, regs))
  {
    hide Place;
    forall pc ensures FindPc(placed, pc) == match FindPc(pcs, pc) case Some(t) => Some(Place(left, fin, t)) case None => None {
      FindPlaced(left, fin, pcs, placed, pc);
    }
  }

  /** Gliding does not change the place in the new code. */
  lemma LandingPlace(left: seq<bool>, fin: seq<nat>, threaded: seq<Op>, keep: seq<bool>, u: nat, goal: nat)
    requires Pruned(threaded, keep, left, fin) && Table(left, fin) && Lands(|left|, u, goal) && goal <= |left|
    ensures Place(left, fin, u) == Place(left, fin, goal)
  {
    FinWithin(threaded, keep, left, fin, |left|);
  }

  /** The op of the new code that carries out op f of the old. */
  lemma NewOp(source: Code, threaded: seq<Op>, left: seq<bool>, fin: seq<nat>, code: Code, f: nat)
    requires Rewritten(source, threaded, left, fin, code) && f < |left| && left[f]
    ensures |left| == |source.ops| && source.keep[f] && Place(left, fin, f) < |code.ops|
    ensures code.ops[Place(left, fin, f)] == source.ops[f].Retarget(Threader(source.ops, source.keep)).Retarget(Placer(left, fin))
  {
    hide Op.Retarget, Eff;
    PlaceAfter(left, fin, threaded, source.keep, f);
    assert PrunedOp(threaded, source.keep, left, fin, f);
  }

  /** The old code does op f and glides on; the new code does its one op. */
  lemma OpMatches<V, W>(h: Host<V, W>, source: Code, threaded: seq<Op>, left: seq<bool>, fin: seq<nat>, code: Code,
                        f: nat, regs: seq<V>, w: W) returns (k: nat)
    requires Rewritten(source, threaded, left, fin, code) && source.Fits(|regs|) && code.Fits(|regs|)
    requires f < |source.ops| && left[f]
    ensures k > 0
    ensures Matches(left, fin, Run(h, source, At(f, regs, w), k), Step(h, code, At(Place(left, fin, f), regs, w)))
  {
    hide Rewritten, Perform, Step, Eff, Place, Depart, Op.Retarget, Op.Reads, Op.Successor, Op.Jumps, Op.HasDest, Bare, Op.WithinRegs, Op.ListFits;
    RewrittenParts(source, threaded, left, fin, code);
    NewOp(source, threaded, left, fin, code, f);
    PlaceAfter(left, fin, threaded, source.keep, f);
    var op, m, p, j := source.ops[f], Threader(source.ops, source.keep), Placer(left, fin), Place(left, fin, f);
    StepIsNext(h, source, f, regs, w);
    StepIsNext(h, code, j, regs, w);
    FitsList(op, source.lists, |regs|);
    var args := Fetch(regs, op.Reads(source.lists));
    SameAct(h, op, m, source.lists, args, w);
    SameAct(h, op.Retarget(m), p, source.lists, args, w);
    var act := Perform(h, op, args, w);
    k := 1;
    assert Run(h, source, At(f, regs, w), 1) == Step(h, source, At(f, regs, w));
    match act
    case Value(v, w') =>
    case Leave(e) =>
      DepartsMatching(h, left, fin, source.pcs, code.pcs, e, regs);
    case Test(b, w') =>
      var t := op.Successor(b, f);
      SuccessorThrough(op, m, p, b, f, j);
      if op.Retarget(m).Retarget(p).Successor(b, j) == p(m(t)) {
        var u, k1 := GlidesEff(source, t);
        LandingPlace(left, fin, threaded, source.keep, u, m(t));
        GlideRuns(h, source, t, u, k1, regs, w');
        RunAppends(h, source, At(f, regs, w), 1, k1);
        k := 1 + k1;
      }
  }

  lemma SuccessorThrough(op: Op, m: nat -> nat, p: nat -> nat, b: bool, i: nat, j: nat)
    requires op.Jumps()
    ensures op.Retarget(m).Retarget(p).Jumps()
    ensures (op.Successor(b, i) == i + 1 && op.Retarget(m).Retarget(p).Successor(b, j) == j + 1)
         || op.Retarget(m).Retarget(p).Successor(b, j) == p(m(op.Successor(b, i)))
  {
    RetargetedFields(op, m);
    RetargetedFields(op.Retarget(m), p);
  }

  lemma RewrittenParts(source: Code, threaded: seq<Op>, left: seq<bool>, fin: seq<nat>, code: Code)
    requires Rewritten(source, threaded, left, fin, code)
    ensures |left| == |source.ops| == |source.keep| && Table(left, fin) && code.lists == source.lists
    ensures Threaded(source.ops, source.keep, threaded) && Pruned(threaded, source.keep, left, fin)
    ensures PcsPlaced(left, fin, source.pcs, code.pcs) && |code.keep| == |code.ops|
    ensures forall i :: 0 <= i < |code.keep| ==> code.keep[i]
    ensures |code.ops| == Count(left, |left|)
  {
  }

  // ----- Whole runs -----

  /** One op of the new code is one or more of the old. */
  lemma StepMatches<V, W>(h: Host<V, W>, source: Code, threaded: seq<Op>, left: seq<bool>, fin: seq<nat>, code: Code,
                          s: State<V, W>, t: State<V, W>) returns (k: nat)
    requires Rewritten(source, threaded, left, fin, code) && s.At?
    requires source.Fits(|s.regs|) && code.Fits(|s.regs|) && Matches(left, fin, s, t)
    ensures k > 0 && Matches(left, fin, Run(h, source, s, k), Step(h, code, t))
  {
    hide Rewritten, Step, Glides, Perform, Pruned, Threaded, Compacted;
    RewrittenParts(source, threaded, left, fin, code);
    var i, n := s.ip, |source.ops|;
    var u, k0;
    if i <= n {
      u, k0 := GlidesToLeft(source, threaded, left, fin, i);
    } else {
      u, k0 := i, 0;
      NoGlide(source, i);
    }
    GlideRuns(h, source, i, u, k0, s.regs, s.w);
    FinFacts(source, threaded, left, fin, code, i);
    if u < n {
      var k1 := OpMatches(h, source, threaded, left, fin, code, u, s.regs, s.w);
      RunAppends(h, source, s, k0, k1);
      k := k0 + k1;
    } else {
      RunAppends(h, source, s, k0, 1);
      k := k0 + 1;
      LostSteps(h, source, u, s.regs, s.w);
      LostSteps(h, code, t.ip, s.regs, s.w);
    }
  }

  lemma NoGlide(code: Code, i: nat)
    requires |code.keep| == |code.ops|
    ensures Glides(code, i, i, 0)
  {
  }

  lemma LostSteps<V, W>(h: Host<V, W>, code: Code, i: nat, regs: seq<V>, w: W)
    requires code.Fits(|regs|) && i >= |code.ops|
    ensures Step(h, code, At(i, regs, w)) == Ended(Lost, w)
    ensures Run(h, code, At(i, regs, w), 1) == Ended(Lost, w)
  {
    assert Run(h, code, At(i, regs, w), 1) == Run(h, code, Step(h, code, At(i, regs, w)), 0);
  }

  lemma FinFacts(source: Code, threaded: seq<Op>, left: seq<bool>, fin: seq<nat>, code: Code, i: nat)
    requires Rewritten(source, threaded, left, fin, code)
    ensures |left| == |source.ops| && Table(left, fin)
    ensures i > |left| ==> Place(left, fin, i) == |code.ops|
    ensures i <= |left| && fin[i] == |left| ==> Place(left, fin, i) == |code.ops|
    ensures i <= |left| && fin[i] < |left| ==> left[fin[i]] && Place(left, fin, fin[i]) == Place(left, fin, i)
  {
    if i <= |left| {
      FinWithin(threaded, source.keep, left, fin, i);
      if fin[i] < |left| {
        PlaceAfter(left, fin, threaded, source.keep, fin[i]);
      }
    }
  }

  /** Whenever the new code ends, the old code ends the same way. */
  lemma {:induction false} NewEndsOldEnds<V, W>(h: Host<V, W>, source: Code, threaded: seq<Op>, left: seq<bool>, fin: seq<nat>, code: Code,
                                                s: State<V, W>, t: State<V, W>, n: nat, how: End<V>, w: W)
    requires Rewritten(source, threaded, left, fin, code)
    requires s.At? ==> source.Fits(|s.regs|) && code.Fits(|s.regs|)
    requires Matches(left, fin, s, t) && Run(h, code, t, n) == Ended(how, w)
    ensures EndsWith(h, source, s, how, w)
    decreases n
  {
    hide Rewritten, Step;
    if s.Ended? {
      assert Run(h, source, s, 0) == Ended(how, w);
    } else {
      var k := StepMatches(h, source, threaded, left, fin, code, s, t);
      var s' := Run(h, source, s, k);
      assert n > 0 && Run(h, code, t, n) == Run(h, code, Step(h, code, t), n - 1);
      NewEndsOldEnds(h, source, threaded, left, fin, code, s', Step(h, code, t), n - 1, how, w);
      var m: nat :| Run(h, source, s', m) == Ended(how, w);
      RunAppends(h, source, s, k, m);
    }
  }

  /** Whenever the old code ends, the new code ends the same way, in no more steps. */
  lemma {:induction false} OldEndsNewEnds<V, W>(h: Host<V, W>, source: Code, threaded: seq<Op>, left: seq<bool>, fin: seq<nat>, code: Code,
                                                s: State<V, W>, t: State<V, W>, n: nat, how: End<V>, w: W)
    returns (m: nat)
    requires Rewritten(source, threaded, left, fin, code)
    requires s.At? ==> source.Fits(|s.regs|) && code.Fits(|s.regs|)
    requires Matches(left, fin, s, t) && Run(h, source, s, n) == Ended(how, w)
    ensures t.At? ==> code.Fits(|t.regs|)
    ensures m <= n && Run(h, code, t, m) == Ended(how, w)
    decreases n
  {
    hide Rewritten, Step;
    if s.Ended? {
      m := 0;
    } else {
      var k := StepMatches(h, source, threaded, left, fin, code, s, t);
      var s', t' := Run(h, source, s, k), Step(h, code, t);
      if k <= n {
        RunAppends(h, source, s, k, n - k);
        m := OldEndsNewEnds(h, source, threaded, left, fin, code, s', t', n - k, how, w);
        assert Run(h, code, t, m + 1) == Run(h, code, t', m);
        m := m + 1;
      } else {
        RunAppends(h, source, s, n, k - n);
        m := 1;
        assert Run(h, code, t, 1) == Run(h, code, t', 0);
        assert n > 0;
      }
    }
  }
}
