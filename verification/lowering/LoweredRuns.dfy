/** Lowering is correct: running the emitted ops leaves in the returned register the value that
    evaluating the tree gives, or fails as the evaluation does; until then no program register
    changes, and in the end only the one asked for. */
module LoweredRuns {
  import opened Basics
  import opened Bytecode
  import opened Machine
  import opened Expressions
  import opened Lowering
  import opened Growth
  import opened Segments
  import opened Atoms
  import opened StrictOps

  ghost predicate Hold<V>(regs: seq<V>, slots: seq<Reg>, vs: seq<V>) {
    |slots| == |vs| && forall i :: 0 <= i < |slots| ==> slots[i] < |regs| && regs[slots[i]] == vs[i]
  }

  ghost predicate ComputesAll<V, W>(h: Host<V, W>, code: Code, pool: seq<nat>, lw: Lw, lw2: Lw, regs: seq<V>, w: W,
                                    k: nat, regs2: seq<V>, slots: seq<Reg>, out: Effect<seq<V>, V, W>)
    requires code.Fits(|regs|)
  {
    && Arrives(Linked(h, pool), code, Span(lw, lw2), |lw.ops|, regs, w, k, regs2, |lw2.ops|, None, out)
    && (out.Yields? ==> Hold(regs2, slots, out.r))
  }

  lemma ReadySplit(code: Code, pool: seq<nat>, a: Lw, b: Lw, c: Lw, n: nat)
    requires Ready(code, pool, a, c, n) && Ok(b) && Grows(a, b) && Grows(b, c)
    ensures Ready(code, pool, a, b, n) && Ready(code, pool, b, c, n)
    ensures Inner(Span(a, b), Span(a, c)) && Inner(Span(b, c), Span(a, c))
  {
    forall i | |a.ops| <= i < |b.ops| ensures EmittedAt(code, b, i) {
      assert EmittedAt(code, c, i);
    }
    forall i | |b.ops| <= i < |c.ops| ensures EmittedAt(code, c, i) {
    }
  }

  lemma SameProgram<V>(a: seq<V>, b: seq<V>, low: nat, but: Option<Reg>, nregs: nat)
    requires Same(a, b, low, but) && nregs <= low && nregs <= |a| && (but.Some? ==> nregs <= but.value)
    ensures a[..nregs] == b[..nregs]
  {
  }

  lemma HoldFetch<V>(regs: seq<V>, slots: seq<Reg>, vs: seq<V>)
    requires Hold(regs, slots, vs)
    ensures Fetch(regs, slots) == vs
  {
  }

  lemma HoldTaken<V>(kind: Kind, regs: seq<V>, slots: seq<Reg>, vs: seq<V>)
    requires Hold(regs, slots, vs) && (kind.Invoke? || kind.Build? ==> |slots| > 0)
    ensures Hold(regs, Taken(Cut, kind, slots), Taken(Cut, kind, vs)) && Fetch(regs, Taken(Cut, kind, slots)) == Taken(Cut, kind, vs)
  {
  }

  lemma {:induction false} LowerRuns<V, W>(h: Host<V, W>, code: Code, pool: seq<nat>, lw: Lw, e: Expr, dst: Option<Reg>, regs: seq<V>, w: W)
    returns (k: nat, regs2: seq<V>)
    requires e.Fits(lw.nregs) && Lower(lw, e, dst).Some? && Below(dst, lw.next) && lw.nregs <= |regs|
    requires Ready(code, pool, lw, Lower(lw, e, dst).value.0, |regs|)
    ensures var (lw2, s) := Lower(lw, e, dst).value;
            Computes(h, code, pool, lw, lw2, regs, w, k, regs2, s, dst, Eval(h, Cut, e, regs[..lw.nregs], w))
    decreases e, 2
  {
    hide Computes, Ready, Emit, LowerStrict, LowerMethodCall, LowerShortcut, LowerChoice, EvalAll;
    if e.Strict? {
      if e.IsMethodCall() {
        k, regs2 := MethodCallRuns(h, code, pool, lw, e, dst, regs, w);
      } else {
        k, regs2 := StrictRuns(h, code, pool, lw, e, dst, regs, w);
      }
    } else if e.Shortcut? {
      k, regs2 := ShortcutRuns(h, code, pool, lw, e, dst, regs, w);
    } else if e.Choice? {
      k, regs2 := ChoiceRuns(h, code, pool, lw, e, dst, regs, w);
    } else {
      k, regs2 := AtomRuns(h, code, pool, lw, e, dst, regs, w);
    }
  }

  lemma {:induction false} AllRuns<V, W>(h: Host<V, W>, code: Code, pool: seq<nat>, lw: Lw, es: seq<Expr>, regs: seq<V>, w: W)
    returns (k: nat, regs2: seq<V>)
    requires Expr.AllFit(es, lw.nregs) && LowerAll(lw, es).Some? && lw.nregs <= |regs|
    requires Ready(code, pool, lw, LowerAll(lw, es).value.0, |regs|)
    ensures var (lw2, slots) := LowerAll(lw, es).value;
            ComputesAll(h, code, pool, lw, lw2, regs, w, k, regs2, slots, EvalAll(h, Cut, es, regs[..lw.nregs], w))
    decreases es, 0
  {
    hide Arrives, Emitted, Expr.Fits, Lower, Eval;
    var hp := Linked(h, pool);
    var out := EvalAll(h, Cut, es, regs[..lw.nregs], w);
    if es == [] {
      k, regs2 := 0, regs;
      Stays(hp, code, Span(lw, lw), |lw.ops|, regs, w, out);
    } else {
      var (lw1, s) := Lower(lw, es[0], None).value;
      var (lw2, slots) := LowerAll(lw1, es[1..]).value;
      LowerGrows(lw, es[0], None);
      AllGrows(lw1, es[1..]);
      ReadySplit(code, pool, lw, lw1, lw2, |regs|);
      var k1, regs1 := LowerRuns(h, code, pool, lw, es[0], None, regs, w);
      var v := Eval(h, Cut, es[0], regs[..lw.nregs], w);
      if !v.Yields? {
        k, regs2 := k1, regs1;
        Fails(hp, code, Span(lw, lw2), |lw.ops|, regs, w, Span(lw, lw1), k1, regs1, |lw1.ops|, None, v, |lw2.ops|, None, out);
      } else {
        var k2: nat;
        ArrivesSame(hp, code, Span(lw, lw1), |lw.ops|, regs, w, k1, regs1, |lw1.ops|, None, v);
        SameProgram(regs, regs1, lw.next, None, lw.nregs);
        k2, regs2 := AllRuns(h, code, pool, lw1, es[1..], regs1, v.w);
        var rest := EvalAll(h, Cut, es[1..], regs1[..lw.nregs], v.w);
        k := k1 + k2;
        Joins(hp, code, Span(lw, lw2), |lw.ops|, regs, w, Span(lw, lw1), k1, regs1, |lw1.ops|, None, v,
              Span(lw1, lw2), k2, regs2, |lw2.ops|, None, rest);
        if rest.Yields? {
          Passes(hp, code, Span(lw, lw2), |lw.ops|, regs, w, Span(lw, lw2), k, regs2, |lw2.ops|, None, rest, None, out);
          ArrivesSame(hp, code, Span(lw1, lw2), |lw1.ops|, regs1, v.w, k2, regs2, |lw2.ops|, None, rest);
          HoldMore(regs1, regs2, lw1.next, s, v.r, slots, rest.r);
        }
      }
    }
  }

  lemma ArrivesSame<R, V, W>(h: Host<V, W>, code: Code, st: Stretch, i: nat, regs: seq<V>, w: W,
                             k: nat, regs2: seq<V>, j: nat, dst: Option<Reg>, out: Effect<R, V, W>)
    requires code.Fits(|regs|) && out.Yields? && Arrives(h, code, st, i, regs, w, k, regs2, j, dst, out)
    ensures |regs2| == |regs| && Same(regs, regs2, st.low, dst)
  {
  }

  lemma HoldMore<V>(a: seq<V>, b: seq<V>, low: nat, s: Reg, v: V, slots: seq<Reg>, vs: seq<V>)
    requires Same(a, b, low, None) && s < low && s < |a| && a[s] == v && Hold(b, slots, vs)
    ensures Hold(b, [s] + slots, [v] + vs)
  {
  }

  // ----- Strict expressions -----

  lemma {:induction false} StrictRuns<V, W>(h: Host<V, W>, code: Code, pool: seq<nat>, lw: Lw, e: Expr, dst: Option<Reg>, regs: seq<V>, w: W)
    returns (k: nat, regs2: seq<V>)
    requires e.Fits(lw.nregs) && e.Strict? && !e.IsMethodCall() && LowerStrict(lw, e, dst).Some?
    requires Below(dst, lw.next) && lw.nregs <= |regs|
    requires Ready(code, pool, lw, LowerStrict(lw, e, dst).value.0, |regs|)
    ensures var (lw2, s) := LowerStrict(lw, e, dst).value;
            Computes(h, code, pool, lw, lw2, regs, w, k, regs2, s, dst, Eval(h, Cut, e, regs[..lw.nregs], w))
    decreases e, 0
  {
    hide Arrives, Emitted, Conclude, Stands, Finish;
    var hp, kind, parts := Linked(h, pool), e.kind, e.parts;
    OperandsFit(kind, parts, lw.nregs);
    var es := Operands(kind, parts);
    var (lw1, slots) := LowerAll(lw, es).value;
    var (lw2, s) := Conclude(lw1, kind, parts, slots, dst).value;
    AllGrows(lw, es);
    ConcludeGrows(lw1, kind, parts, slots, dst);
    ReadySplit(code, pool, lw, lw1, lw2, |regs|);
    var k1, regs1 := AllRuns(h, code, pool, lw, es, regs, w);
    var prog := regs[..lw.nregs];
    var some, all := EvalAll(h, Cut, es, prog, w), EvalAll(h, Cut, parts, prog, w);
    OperandsSuffice(h, kind, parts, prog, w);
    var out := Eval(h, Cut, e, prog, w);
    if !some.Yields? {
      k, regs2 := k1, regs1;
      Fails(hp, code, Span(lw, lw2), |lw.ops|, regs, w, Span(lw, lw1), k1, regs1, |lw1.ops|, None, some, |lw2.ops|, dst, out);
    } else {
      ArrivesSame(hp, code, Span(lw, lw1), |lw.ops|, regs, w, k1, regs1, |lw1.ops|, None, some);
      regs2 := ConcludeRuns(h, code, pool, lw1, kind, parts, slots, dst, some.r, all.r, regs1, all.w);
      k := k1 + 1;
      Joins(hp, code, Span(lw, lw2), |lw.ops|, regs, w, Span(lw, lw1), k1, regs1, |lw1.ops|, None, some,
            Span(lw1, lw2), 1, regs2, |lw2.ops|, dst, out);
    }
  }

  lemma ConcludeRuns<V, W>(h: Host<V, W>, code: Code, pool: seq<nat>, lw: Lw, kind: Kind, parts: seq<Expr>, slots: seq<Reg>,
                           dst: Option<Reg>, some: seq<V>, all: seq<V>, regs: seq<V>, w: W)
    returns (regs2: seq<V>)
    requires kind.Takes(|parts|) && |slots| == |Operands(kind, parts)| && Stands(h, kind, parts, some, all)
    requires Conclude(lw, kind, parts, slots, dst).Some? && Hold(regs, slots, some) && Below(dst, lw.next)
    requires Ready(code, pool, lw, Conclude(lw, kind, parts, slots, dst).value.0, |regs|)
    ensures var (lw2, s) := Conclude(lw, kind, parts, slots, dst).value;
            Computes(h, code, pool, lw, lw2, regs, w, 1, regs2, s, dst, Finish(h, kind, parts, Taken(Cut, kind, all), w))
  {
    hide Arrives, Perform, Op.Reads, Op.WithinRegs, Op.ListFits, OpOf, Finish, Arity, Kind.Takes, Taken, Ready, Conclude, Operands, Stands, Code.Fits;
    var (lw2, s) := Conclude(lw, kind, parts, slots, dst).value;
    StandsCount(h, kind, parts, some, all);
    ConcludeAt(code, pool, lw, kind, parts, slots, dst, |regs|);
    OpPerforms(h, pool, kind, parts, slots, |lw.lists|, |lw.consts|, s, some, all, w);
    HoldTaken(kind, regs, slots, some);
    regs2 := StepArrives(Linked(h, pool), code, Span(lw, lw2), |lw.ops|, regs, w, dst, Finish(h, kind, parts, Taken(Cut, kind, all), w));
  }

  /** The one op that concludes a strict expression, in the code. */
  lemma ConcludeAt(code: Code, pool: seq<nat>, lw: Lw, kind: Kind, parts: seq<Expr>, slots: seq<Reg>, dst: Option<Reg>, n: nat)
    requires kind.Takes(|parts|) && |slots| == |Operands(kind, parts)|
    requires Conclude(lw, kind, parts, slots, dst).Some?
    requires Ready(code, pool, lw, Conclude(lw, kind, parts, slots, dst).value.0, n)
    ensures var (lw2, s) := Conclude(lw, kind, parts, slots, dst).value;
            var op := OpOf(kind, parts, slots, |lw.lists|, |lw.consts|, s);
            && |lw2.ops| == |lw.ops| + 1 <= |code.ops| == |code.keep| && code.ops[|lw.ops|] == op && code.keep[|lw.ops|]
            && op.WithinRegs(code.lists, n) && op.ListFits(code.lists) && op.Reads(code.lists) == Taken(Cut, kind, slots) && op.HasDest() && op.d == s
            && code.Fits(n) && (dst == Some(s) || lw.next <= s)
    ensures kind.Property? && parts[1].Text? ==> |lw.consts| < |pool| && pool[|lw.consts|] == parts[1].k
  {
    hide Op.Reads, Op.WithinRegs, Op.ListFits, OpOf, Emitted, Code.Fits;
    var (lw2, s) := Conclude(lw, kind, parts, slots, dst).value;
    LastOp(code, lw, lw2, OpOf(kind, parts, slots, |lw.lists|, |lw.consts|, s), n);
    ReadyLength(code, pool, lw, lw2, n);
    PooledForOp(code, pool, lw, kind, parts, slots, dst, n);
    OpReads(kind, parts, slots, |lw.lists|, |lw.consts|, s, code.lists);
  }

  lemma ReadyLength(code: Code, pool: seq<nat>, lw: Lw, lw2: Lw, n: nat)
    requires Ready(code, pool, lw, lw2, n)
    ensures |lw2.ops| <= |code.ops| == |code.keep|
  {
  }

  lemma StandsCount<V, W>(h: Host<V, W>, kind: Kind, parts: seq<Expr>, some: seq<V>, all: seq<V>)
    requires kind.Takes(|parts|) && Stands(h, kind, parts, some, all)
    ensures |all| == |parts| && (kind.Invoke? || kind.Build? ==> |some| > 0)
  {
  }

  /** The list and the text that the op names are where it says. */
  lemma PooledForOp(code: Code, pool: seq<nat>, lw: Lw, kind: Kind, parts: seq<Expr>, slots: seq<Reg>, dst: Option<Reg>, n: nat)
    requires kind.Takes(|parts|) && |slots| == |Operands(kind, parts)| && Conclude(lw, kind, parts, slots, dst).Some?
    requires Ready(code, pool, lw, Conclude(lw, kind, parts, slots, dst).value.0, n)
    ensures var a := |lw.lists|;
            a + |Listed(kind, slots)| <= |code.lists| && code.lists[a..a + |Listed(kind, slots)|] == Listed(kind, slots)
    ensures kind.Property? && parts[1].Text? ==> |lw.consts| < |pool| && pool[|lw.consts|] == parts[1].k
  {
    hide OpOf;
    var (lw2, s) := Conclude(lw, kind, parts, slots, dst).value;
    assert code.lists[..|lw2.lists|] == lw2.lists;
    assert kind.Property? && parts[1].Text? ==> lw2.consts[|lw.consts|] == parts[1].k == pool[|lw.consts|];
  }

  // ----- Method calls -----

  /** The function found in a property of an object, and the object. */
  function MethodOf<V, W>(h: Host<V, W>, e: Expr, regs: seq<V>, w: W): Effect<seq<V>, V, W>
    requires e.Fits(|regs|) && e.Strict? && e.kind.Property?
  {
    var vs := EvalAll(h, Cut, e.parts, regs, w);
    if !vs.Yields? then Failed(vs) else
    var f := Finish(h, Property, e.parts, vs.r, vs.w);
    if f.Yields? then Yields([f.r, vs.r[0]], f.w) else Failed(f)
  }

  /** The rest of it, once the object has the value o. */
  function KeyOf<V, W>(h: Host<V, W>, e: Expr, o: V, regs: seq<V>, w: W): Effect<seq<V>, V, W>
    requires e.Fits(|regs|) && e.Strict? && e.kind.Property?
  {
    var key := Eval(h, Cut, e.parts[1], regs, w);
    if !key.Yields? then Failed(key) else
    var f := Finish(h, Property, e.parts, [o, key.r], key.w);
    if f.Yields? then Yields([f.r, o], f.w) else Failed(f)
  }

  lemma MethodIsKey<V, W>(h: Host<V, W>, e: Expr, regs: seq<V>, w: W)
    requires e.Fits(|regs|) && e.Strict? && e.kind.Property?
    ensures var v := Eval(h, Cut, e.parts[0], regs, w);
            MethodOf(h, e, regs, w) == if v.Yields? then KeyOf(h, e, v.r, regs, v.w) else Failed(v)
  {
    hide Finish;
    PairEval(h, e.parts, regs, w);
  }

  lemma {:induction false} MethodRuns<V, W>(h: Host<V, W>, code: Code, pool: seq<nat>, lw: Lw, e: Expr, regs: seq<V>, w: W)
    returns (k: nat, regs2: seq<V>)
    requires e.Fits(lw.nregs) && e.Strict? && e.kind.Property? && LowerMethod(lw, e).Some? && lw.nregs <= |regs|
    requires Ready(code, pool, lw, LowerMethod(lw, e).value.0, |regs|)
    ensures var (lw2, os, fs) := LowerMethod(lw, e).value;
            ComputesAll(h, code, pool, lw, lw2, regs, w, k, regs2, [fs, os], MethodOf(h, e, regs[..lw.nregs], w))
    decreases e, 1
  {
    hide Arrives, Emitted, Lower, LowerKey, Eval, MethodOf, KeyOf;
    var hp, prog, o := Linked(h, pool), regs[..lw.nregs], e.parts[0];
    var (lw1, os) := Lower(lw, o, None).value;
    var (lw2, fs) := LowerKey(lw1, e, os).value;
    LowerGrows(lw, o, None);
    KeyGrows(lw1, e, os);
    ReadySplit(code, pool, lw, lw1, lw2, |regs|);
    var k1, regs1 := LowerRuns(h, code, pool, lw, o, None, regs, w);
    var v := Eval(h, Cut, o, prog, w);
    MethodIsKey(h, e, prog, w);
    var out := MethodOf(h, e, prog, w);
    if !v.Yields? {
      k, regs2 := k1, regs1;
      Fails(hp, code, Span(lw, lw2), |lw.ops|, regs, w, Span(lw, lw1), k1, regs1, |lw1.ops|, None, v, |lw2.ops|, None, out);
    } else {
      ArrivesSame(hp, code, Span(lw, lw1), |lw.ops|, regs, w, k1, regs1, |lw1.ops|, None, v);
      SameProgram(regs, regs1, lw.next, None, lw.nregs);
      var k2: nat;
      k2, regs2 := KeyRuns(h, code, pool, lw1, e, os, v.r, regs1, v.w);
      k := k1 + k2;
      Joins(hp, code, Span(lw, lw2), |lw.ops|, regs, w, Span(lw, lw1), k1, regs1, |lw1.ops|, None, v,
            Span(lw1, lw2), k2, regs2, |lw2.ops|, None, out);
    }
  }

  lemma {:induction false} KeyRuns<V, W>(h: Host<V, W>, code: Code, pool: seq<nat>, lw: Lw, e: Expr, os: Reg, o: V, regs: seq<V>, w: W)
    returns (k: nat, regs2: seq<V>)
    requires e.Fits(lw.nregs) && e.Strict? && e.kind.Property? && LowerKey(lw, e, os).Some? && lw.nregs <= |regs|
    requires Ready(code, pool, lw, LowerKey(lw, e, os).value.0, |regs|)
    requires os < lw.next && os < |regs| && regs[os] == o
    ensures var (lw2, fs) := LowerKey(lw, e, os).value;
            ComputesAll(h, code, pool, lw, lw2, regs, w, k, regs2, [fs, os], KeyOf(h, e, o, regs[..lw.nregs], w))
    decreases e, 0
  {
    hide Arrives, Emitted, Lower, Eval, Finish, Stands;
    var hp, prog, key := Linked(h, pool), regs[..lw.nregs], e.parts[1];
    var (lw1, fs) := Temp(lw).value;
    var (end, _) := LowerKey(lw, e, os).value;
    var out := KeyOf(h, e, o, prog, w);
    var u := Eval(h, Cut, key, prog, w);
    KeyGrows(lw, e, os);
    if key.Text? {
      TextLoads(h, key, prog, w);
      TextStands(h, e.parts, o, u.r);
      regs2 := GetRuns(h, code, pool, lw, end, e.parts, [os], |lw.consts|, fs, [o], [o, u.r], regs, w);
      k := 1;
      var f := Finish(h, Property, e.parts, [o, u.r], w);
      GotMethod(hp, code, Span(lw, end), |lw.ops|, regs, w, Span(lw, end), k, regs2, |end.ops|, fs, os, o, f, out);
    } else {
      var (lw2, ks) := Lower(lw1, key, None).value;
      LowerGrows(lw1, key, None);
      KeyReady(code, pool, lw, lw1, lw2, end, fs, os, ks, |regs|);
      var k1, regs1 := LowerRuns(h, code, pool, lw1, key, None, regs, w);
      if !u.Yields? {
        k, regs2 := k1, regs1;
        Fails(hp, code, Span(lw, end), |lw.ops|, regs, w, Span(lw1, lw2), k1, regs1, |lw2.ops|, None, u, |end.ops|, None, out);
      } else {
        ArrivesSame(hp, code, Span(lw1, lw2), |lw.ops|, regs, w, k1, regs1, |lw2.ops|, None, u);
        PairStands(h, e.parts, o, u.r);
        regs2 := GetRuns(h, code, pool, lw2, end, e.parts, [os, ks], 0, fs, [o, u.r], [o, u.r], regs1, u.w);
        k := k1 + 1;
        var f := Finish(h, Property, e.parts, [o, u.r], u.w);
        Joins(hp, code, Span(lw, end), |lw.ops|, regs, w, Span(lw1, lw2), k1, regs1, |lw2.ops|, None, u,
              Span(lw2, end), 1, regs2, |end.ops|, Some(fs), f);
        GotMethod(hp, code, Span(lw, end), |lw.ops|, regs, w, Span(lw, end), k, regs2, |end.ops|, fs, os, o, f, out);
      }
    }
  }

  lemma TextLoads<V, W>(h: Host<V, W>, key: Expr, regs: seq<V>, w: W)
    requires key.Text?
    ensures Eval(h, Cut, key, regs, w) == Yields(h.load(Const(0, key.k), w), w)
  {
  }

  lemma TextStands<V, W>(h: Host<V, W>, parts: seq<Expr>, o: V, v: V)
    requires |parts| == 2 && parts[1].Text?
    ensures Stands(h, Property, parts, [o], [o, v])
  {
  }

  lemma PairStands<V, W>(h: Host<V, W>, parts: seq<Expr>, o: V, v: V)
    requires |parts| == 2 && !parts[1].Text?
    ensures Stands(h, Property, parts, [o, v], [o, v])
  {
  }

  lemma KeyReady(code: Code, pool: seq<nat>, lw: Lw, lw1: Lw, lw2: Lw, end: Lw, fs: Reg, os: Reg, ks: Reg, n: nat)
    requires Ready(code, pool, lw, end, n) && Temp(lw) == Some((lw1, fs)) && end == Push(lw2, Member(fs, os, ks))
    requires Ok(lw2) && Grows(lw1, lw2)
    ensures Ready(code, pool, lw1, lw2, n) && Ready(code, pool, lw2, end, n)
    ensures Inner(Span(lw1, lw2), Span(lw, end)) && Inner(Span(lw2, end), Span(lw, end))
  {
    ReadySplit(code, pool, lw, lw1, end, n);
    ReadySplit(code, pool, lw1, lw2, end, n);
  }

  /** The op that reads the property. */
  lemma GetRuns<V, W>(h: Host<V, W>, code: Code, pool: seq<nat>, lw: Lw, end: Lw, parts: seq<Expr>, slots: seq<Reg>, c: nat, fs: Reg,
                      some: seq<V>, all: seq<V>, regs: seq<V>, w: W) returns (regs2: seq<V>)
    requires |parts| == 2 && |slots| == |Operands(Property, parts)| && Stands(h, Property, parts, some, all)
    requires parts[1].Text? ==> c < |end.consts| && end.consts[c] == parts[1].k
    requires Ready(code, pool, lw, end, |regs|) && Hold(regs, slots, some)
    requires end.ops == lw.ops + [OpOf(Property, parts, slots, 0, c, fs)]
    ensures Arrives(Linked(h, pool), code, Span(lw, end), |lw.ops|, regs, w, 1, regs2, |end.ops|, Some(fs),
                    Finish(h, Property, parts, all, w))
    ensures Finish(h, Property, parts, all, w).Yields? ==> fs < |regs2| && regs2[fs] == Finish(h, Property, parts, all, w).r
  {
    hide Arrives, Perform, Op.Reads, OpOf, Finish, Arity;
    var op := OpOf(Property, parts, slots, 0, c, fs);
    LastOp(code, lw, end, op, |regs|);
    assert parts[1].Text? ==> pool[c] == end.consts[c];
    OpReads(Property, parts, slots, 0, c, fs, code.lists);
    OpPerforms(h, pool, Property, parts, slots, 0, c, fs, some, all, w);
    HoldFetch(regs, slots, some);
    regs2 := StepArrives(Linked(h, pool), code, Span(lw, end), |lw.ops|, regs, w, Some(fs), Finish(h, Property, parts, all, w));
  }

  /** The function is in its temporary, and the object still where it was. */
  lemma GotMethod<V, W>(h: Host<V, W>, code: Code, st: Stretch, i: nat, regs: seq<V>, w: W, st1: Stretch,
                        k: nat, regs2: seq<V>, j: nat, fs: Reg, os: Reg, o: V, f: Effect<V, V, W>, out: Effect<seq<V>, V, W>)
    requires code.Fits(|regs|) && Inner(st1, st) && st.low <= fs && os < st.low && os < |regs|
    requires Arrives(h, code, st1, i, regs, w, k, regs2, j, Some(fs), f)
    requires regs[os] == o && (f.Yields? ==> fs < |regs2| && regs2[fs] == f.r)
    requires out == if f.Yields? then Yields([f.r, o], f.w) else Failed(f)
    ensures Arrives(h, code, st, i, regs, w, k, regs2, j, None, out)
    ensures out.Yields? ==> Hold(regs2, [fs, os], out.r)
  {
    hide Arrives;
    if f.Yields? {
      ArrivesSame(h, code, st1, i, regs, w, k, regs2, j, Some(fs), f);
      Passes(h, code, st, i, regs, w, st1, k, regs2, j, Some(fs), f, None, out);
    } else {
      Fails(h, code, st, i, regs, w, st1, k, regs2, j, Some(fs), f, j, None, out);
    }
  }

  /** The function, the object and the arguments of a method call. */
  function HeadOf<V, W>(h: Host<V, W>, e: Expr, regs: seq<V>, w: W): Effect<seq<V>, V, W>
    requires e.Fits(|regs|) && e.IsMethodCall() && e.parts[0].Fits(|regs|)
  {
    var f := MethodOf(h, e.parts[0], regs, w);
    if !f.Yields? then f else
    var vs := EvalAll(h, Cut, e.parts[1..], regs, f.w);
    if vs.Yields? then Yields(f.r + vs.r, vs.w) else vs
  }

  lemma {:induction false} HeadRuns<V, W>(h: Host<V, W>, code: Code, pool: seq<nat>, lw: Lw, e: Expr, lw1: Lw, os: Reg, fs: Reg, lw2: Lw,
                                          slots: seq<Reg>, regs: seq<V>, w: W)
    returns (k: nat, regs2: seq<V>)
    requires e.Fits(lw.nregs) && e.IsMethodCall() && e.parts[0].Fits(lw.nregs) && lw.nregs <= |regs|
    requires LowerMethod(lw, e.parts[0]) == Some((lw1, os, fs)) && LowerAll(lw1, e.parts[1..]) == Some((lw2, slots))
    requires Ready(code, pool, lw, lw2, |regs|)
    ensures ComputesAll(h, code, pool, lw, lw2, regs, w, k, regs2, [fs, os] + slots, HeadOf(h, e, regs[..lw.nregs], w))
    decreases e, 0
  {
    hide Arrives, Emitted, LowerMethod, LowerAll, MethodOf, EvalAll;
    var hp, prog, m, rest := Linked(h, pool), regs[..lw.nregs], e.parts[0], e.parts[1..];
    MethodGrows(lw, m);
    AllGrows(lw1, rest);
    ReadySplit(code, pool, lw, lw1, lw2, |regs|);
    var k1, regs1 := MethodRuns(h, code, pool, lw, m, regs, w);
    var f, out := MethodOf(h, m, prog, w), HeadOf(h, e, prog, w);
    if !f.Yields? {
      k, regs2 := k1, regs1;
      Fails(hp, code, Span(lw, lw2), |lw.ops|, regs, w, Span(lw, lw1), k1, regs1, |lw1.ops|, None, f, |lw2.ops|, None, out);
    } else {
      ArrivesSame(hp, code, Span(lw, lw1), |lw.ops|, regs, w, k1, regs1, |lw1.ops|, None, f);
      SameProgram(regs, regs1, lw.next, None, lw.nregs);
      var k2: nat;
      k2, regs2 := AllRuns(h, code, pool, lw1, rest, regs1, f.w);
      var vs := EvalAll(h, Cut, rest, prog, f.w);
      k := k1 + k2;
      Joins(hp, code, Span(lw, lw2), |lw.ops|, regs, w, Span(lw, lw1), k1, regs1, |lw1.ops|, None, f,
            Span(lw1, lw2), k2, regs2, |lw2.ops|, None, vs);
      if vs.Yields? {
        ArrivesSame(hp, code, Span(lw1, lw2), |lw1.ops|, regs1, f.w, k2, regs2, |lw2.ops|, None, vs);
        HoldTwo(regs1, regs2, lw1.next, fs, os, f.r, slots, vs.r);
        Passes(hp, code, Span(lw, lw2), |lw.ops|, regs, w, Span(lw, lw2), k, regs2, |lw2.ops|, None, vs, None, out);
      }
    }
  }

  lemma {:induction false} MethodCallRuns<V, W>(h: Host<V, W>, code: Code, pool: seq<nat>, lw: Lw, e: Expr, dst: Option<Reg>, regs: seq<V>, w: W)
    returns (k: nat, regs2: seq<V>)
    requires e.Fits(lw.nregs) && e.IsMethodCall() && LowerMethodCall(lw, e, dst).Some?
    requires Below(dst, lw.next) && lw.nregs <= |regs|
    requires Ready(code, pool, lw, LowerMethodCall(lw, e, dst).value.0, |regs|)
    ensures var (lw2, s) := LowerMethodCall(lw, e, dst).value;
            Computes(h, code, pool, lw, lw2, regs, w, k, regs2, s, dst, Eval(h, Cut, e, regs[..lw.nregs], w))
    decreases e, 1
  {
    hide Arrives, Emitted, LowerMethod, LowerAll, LowerCall, HeadOf, EvalAll;
    var hp, prog := Linked(h, pool), regs[..lw.nregs];
    assert e.parts[0].Fits(lw.nregs);
    var (lw1, os, fs) := LowerMethod(lw, e.parts[0]).value;
    var (lw2, slots) := LowerAll(lw1, e.parts[1..]).value;
    var (lw3, s) := LowerCall(lw2, fs, os, slots, dst).value;
    MethodGrows(lw, e.parts[0]);
    AllGrows(lw1, e.parts[1..]);
    CallGrows(lw2, fs, os, slots, dst);
    ReadySplit(code, pool, lw, lw2, lw3, |regs|);
    var k1, regs1 := HeadRuns(h, code, pool, lw, e, lw1, os, fs, lw2, slots, regs, w);
    var out, head := Eval(h, Cut, e, prog, w), HeadOf(h, e, prog, w);
    CallIsHead(h, e, prog, w);
    if !head.Yields? {
      k, regs2 := k1, regs1;
      Fails(hp, code, Span(lw, lw3), |lw.ops|, regs, w, Span(lw, lw2), k1, regs1, |lw2.ops|, None, head, |lw3.ops|, dst, out);
    } else {
      ArrivesSame(hp, code, Span(lw, lw2), |lw.ops|, regs, w, k1, regs1, |lw2.ops|, None, head);
      regs2 := CallRuns(h, code, pool, lw2, fs, os, slots, dst, head.r, regs1, head.w);
      k := k1 + 1;
      Joins(hp, code, Span(lw, lw3), |lw.ops|, regs, w, Span(lw, lw2), k1, regs1, |lw2.ops|, None, head,
            Span(lw2, lw3), 1, regs2, |lw3.ops|, dst, out);
    }
  }

  lemma CallIsHead<V, W>(h: Host<V, W>, e: Expr, regs: seq<V>, w: W)
    requires e.Fits(|regs|) && e.IsMethodCall() && e.parts[0].Fits(|regs|)
    ensures var head := HeadOf(h, e, regs, w);
            Eval(h, Cut, e, regs, w) ==
              if head.Yields? then h.act(Call(0, 0, 0, 0, Low16(|e.parts| - 1)), head.r[..2 + Low16(|e.parts| - 1)], head.w) else Failed(head)
  {
    hide Finish;
    var f := MethodOf(h, e.parts[0], regs, w);
    if f.Yields? {
      var vs := EvalAll(h, Cut, e.parts[1..], regs, f.w);
      if vs.Yields? {
        var n := Low16(|vs.r|);
        assert (f.r + vs.r)[..2 + n] == f.r + vs.r[..n];
      }
    }
  }

  lemma HoldTwo<V>(a: seq<V>, b: seq<V>, low: nat, fs: Reg, os: Reg, two: seq<V>, slots: seq<Reg>, vs: seq<V>)
    requires Same(a, b, low, None) && fs < low && os < low && Hold(a, [fs, os], two) && Hold(b, slots, vs)
    ensures Hold(b, [fs, os] + slots, two + vs)
  {
    assert [fs, os][0] == fs && [fs, os][1] == os;
  }

  lemma CallRuns<V, W>(h: Host<V, W>, code: Code, pool: seq<nat>, lw: Lw, fs: Reg, os: Reg, slots: seq<Reg>, dst: Option<Reg>,
                       vs: seq<V>, regs: seq<V>, w: W) returns (regs2: seq<V>)
    requires LowerCall(lw, fs, os, slots, dst).Some? && Below(dst, lw.next) && os != NOSLOT
    requires Ready(code, pool, lw, LowerCall(lw, fs, os, slots, dst).value.0, |regs|) && Hold(regs, [fs, os] + slots, vs)
    ensures var (lw2, s) := LowerCall(lw, fs, os, slots, dst).value;
            var n := Low16(|slots|);
            Computes(h, code, pool, lw, lw2, regs, w, 1, regs2, s, dst, h.act(Call(0, 0, 0, 0, n), vs[..2 + n], w))
  {
    hide Arrives, Perform;
    var (lw2, s) := LowerCall(lw, fs, os, slots, dst).value;
    var a, n := |lw.lists|, Low16(|slots|);
    var op := Call(s, fs, os, a, n);
    LastOp(code, lw, lw2, op, |regs|);
    assert code.lists[a..a + n] == slots[..n];
    var from := [fs, os] + slots[..n];
    assert op.Reads(code.lists) == from && from == ([fs, os] + slots)[..2 + n];
    HoldFirst(regs, [fs, os] + slots, vs, 2 + n);
    HoldFetch(regs, from, vs[..2 + n]);
    CallPerforms(h, pool, op, vs[..2 + n], w);
    regs2 := StepArrives(Linked(h, pool), code, Span(lw, lw2), |lw.ops|, regs, w, dst, h.act(Call(0, 0, 0, 0, n), vs[..2 + n], w));
  }

  lemma HoldFirst<V>(regs: seq<V>, slots: seq<Reg>, vs: seq<V>, n: nat)
    requires Hold(regs, slots, vs) && n <= |slots|
    ensures n <= |vs| && Hold(regs, slots[..n], vs[..n])
  {
  }

  lemma CallPerforms<V, W>(h: Host<V, W>, pool: seq<nat>, op: Op, vs: seq<V>, w: W)
    requires op.Call? && op.receiver != NOSLOT
    ensures Arity(op) == 0 && Perform(Linked(h, pool), op, vs, w) == FromEffect(h.act(Call(0, 0, 0, 0, op.count), vs, w))
  {
    assert Bare(op) == Call(0, 0, 0, 0, op.count);
    assert Resolve(Bare(op), pool) == Bare(op);
  }

  // ----- Short circuits -----

  lemma ShortcutFits(e: Expr, nregs: nat)
    requires e.Fits(nregs) && e.Shortcut?
    ensures e.x.Fits(nregs) && e.y.Fits(nregs)
  {
  }

  lemma ChoiceFits(e: Expr, nregs: nat)
    requires e.Fits(nregs) && e.Choice?
    ensures e.test.Fits(nregs) && e.x.Fits(nregs) && e.y.Fits(nregs)
  {
  }

  lemma ShortcutMeans<V, W>(h: Host<V, W>, e: Expr, regs: seq<V>, w: W)
    requires e.Fits(|regs|) && e.Shortcut? && e.x.Fits(|regs|) && e.y.Fits(|regs|)
    ensures var v := Eval(h, Cut, e.x, regs, w);
            Eval(h, Cut, e, regs, w) == if v.Yields? && !Decided(h, e.link, v.r) then Eval(h, Cut, e.y, regs, v.w) else v
  {
  }

  lemma ChoiceMeans<V, W>(h: Host<V, W>, e: Expr, regs: seq<V>, w: W)
    requires e.Fits(|regs|) && e.Choice? && e.test.Fits(|regs|) && e.x.Fits(|regs|) && e.y.Fits(|regs|)
    ensures var v := Eval(h, Cut, e.test, regs, w);
            Eval(h, Cut, e, regs, w) == if v.Yields? then Eval(h, Cut, if h.truthy(v.r) then e.x else e.y, regs, v.w) else v
  {
  }

  /** Where a value that two paths leave in t ends up. */
  lemma SettleRuns<V, W>(h: Host<V, W>, code: Code, pool: seq<nat>, lw: Lw, mid: Lw, t: Reg, dst: Option<Reg>, regs: seq<V>, w: W,
                         k1: nat, regs1: seq<V>, out: Effect<V, V, W>) returns (k: nat, regs2: seq<V>)
    requires Ok(lw) && Ok(mid) && Grows(lw, mid) && lw.next <= t && Below(dst, lw.next)
    requires Ready(code, pool, lw, Settle(mid, t, dst).0, |regs|)
    requires Computes(h, code, pool, lw, mid, regs, w, k1, regs1, t, None, out)
    ensures Computes(h, code, pool, lw, Settle(mid, t, dst).0, regs, w, k, regs2, Settle(mid, t, dst).1, dst, out)
  {
    hide Arrives, Emitted;
    var hp := Linked(h, pool);
    var end := Settle(mid, t, dst).0;
    if dst.None? {
      k, regs2 := k1, regs1;
    } else if out.Yields? {
      ReadySplit(code, pool, lw, mid, end, |regs|);
      ArrivesSame(hp, code, Span(lw, mid), |lw.ops|, regs, w, k1, regs1, |mid.ops|, None, out);
      regs2 := MoveRuns(h, code, pool, mid, end, dst.value, t, regs1, out.w);
      k := k1 + 1;
      var moved := Effect<V, V, W>.Yields(regs1[t], out.w);
      assert moved == out;
      Joins(hp, code, Span(lw, end), |lw.ops|, regs, w, Span(lw, mid), k1, regs1, |mid.ops|, None, out,
            Span(mid, end), 1, regs2, |end.ops|, dst, out);
    } else {
      k, regs2 := k1, regs1;
      Fails(hp, code, Span(lw, end), |lw.ops|, regs, w, Span(lw, mid), k1, regs1, |mid.ops|, None, out, |end.ops|, dst, out);
    }
  }

  /** A run through a part of a stretch, whose result goes to a temporary, is one through the whole. */
  lemma Widen<V, W>(h: Host<V, W>, code: Code, st: Stretch, i: nat, regs: seq<V>, w: W, st1: Stretch, k: nat, regs2: seq<V>, j: nat, t: Reg,
                    out: Effect<V, V, W>)
    requires code.Fits(|regs|) && st.low <= t && Inner(st1, st) && Arrives(h, code, st1, i, regs, w, k, regs2, j, Some(t), out)
    ensures Arrives(h, code, st, i, regs, w, k, regs2, j, None, out)
  {
    if out.Yields? {
      Passes(h, code, st, i, regs, w, st1, k, regs2, j, Some(t), out, None, out);
    } else {
      Fails(h, code, st, i, regs, w, st1, k, regs2, j, Some(t), out, j, None, out);
    }
  }

  lemma {:induction false} ShortcutRuns<V, W>(h: Host<V, W>, code: Code, pool: seq<nat>, lw: Lw, e: Expr, dst: Option<Reg>, regs: seq<V>, w: W)
    returns (k: nat, regs2: seq<V>)
    requires e.Fits(lw.nregs) && e.Shortcut? && LowerShortcut(lw, e, dst).Some?
    requires Below(dst, lw.next) && lw.nregs <= |regs|
    requires Ready(code, pool, lw, LowerShortcut(lw, e, dst).value.0, |regs|)
    ensures var (lw2, s) := LowerShortcut(lw, e, dst).value;
            Computes(h, code, pool, lw, lw2, regs, w, k, regs2, s, dst, Eval(h, Cut, e, regs[..lw.nregs], w))
    decreases e, 1
  {
    hide Arrives, Emitted, Lower, Eval, Expr.Fits, Computes;
    ShortcutFits(e, lw.nregs);
    var (lw0, t) := Temp(lw).value;
    var (lw1, _) := Lower(lw0, e.x, Some(t)).value;
    var skip := Push(lw1, SkipIf(e.link, t, 0));
    var (lw2, _) := Lower(skip, e.y, Some(t)).value;
    var mid := lw2.(ops := lw2.ops[|lw1.ops| := SkipIf(e.link, t, |lw2.ops|)]);
    var end := Settle(mid, t, dst).0;
    LowerGrows(lw0, e.x, Some(t));
    LowerGrows(skip, e.y, Some(t));
    ShortcutReady(code, pool, e.link, lw, lw0, t, lw1, skip, lw2, mid, end, dst, |regs|);
    var k1, regs1 := ShortcutBody(h, code, pool, lw, e, lw0, t, lw1, skip, lw2, mid, regs, w);
    k, regs2 := SettleRuns(h, code, pool, lw, mid, t, dst, regs, w, k1, regs1, Eval(h, Cut, e, regs[..lw.nregs], w));
  }

  lemma ShortcutReady(code: Code, pool: seq<nat>, link: Connective, lw: Lw, lw0: Lw, t: Reg, lw1: Lw, skip: Lw, lw2: Lw, mid: Lw, end: Lw,
                      dst: Option<Reg>, n: nat)
    requires Ok(lw) && Temp(lw) == Some((lw0, t)) && Ok(lw1) && Grows(lw0, lw1)
    requires skip == Push(lw1, SkipIf(link, t, 0)) && Ok(lw2) && Grows(skip, lw2)
    requires mid == lw2.(ops := lw2.ops[|lw1.ops| := SkipIf(link, t, |lw2.ops|)]) && end == Settle(mid, t, dst).0
    requires Ready(code, pool, lw, end, n)
    ensures Ok(mid) && Grows(lw, mid) && Ready(code, pool, lw, mid, n)
    ensures Ready(code, pool, lw0, lw1, n) && Ready(code, pool, skip, lw2, n)
    ensures |lw1.ops| < |mid.ops| <= |code.ops|
    ensures code.ops[|lw1.ops|] == SkipIf(link, t, |lw2.ops|) && code.keep[|lw1.ops|]
  {
    ReadySplit(code, pool, lw, mid, end, n);
    assert EmittedAt(code, mid, |lw1.ops|);
    forall i | |lw0.ops| <= i < |lw1.ops| ensures EmittedAt(code, lw1, i) {
      assert EmittedAt(code, mid, i);
    }
    forall i | |skip.ops| <= i < |lw2.ops| ensures EmittedAt(code, lw2, i) {
      assert EmittedAt(code, mid, i);
    }
  }

  lemma {:induction false} ShortcutBody<V, W>(h: Host<V, W>, code: Code, pool: seq<nat>, lw: Lw, e: Expr, lw0: Lw, t: Reg, lw1: Lw,
                                              skip: Lw, lw2: Lw, mid: Lw, regs: seq<V>, w: W)
    returns (k: nat, regs2: seq<V>)
    requires e.Fits(lw.nregs) && e.Shortcut? && lw.nregs <= |regs|
    requires Temp(lw) == Some((lw0, t)) && Lower(lw0, e.x, Some(t)) == Some((lw1, t))
    requires skip == Push(lw1, SkipIf(e.link, t, 0)) && Lower(skip, e.y, Some(t)) == Some((lw2, t))
    requires mid == lw2.(ops := lw2.ops[|lw1.ops| := SkipIf(e.link, t, |lw2.ops|)])
    requires Ready(code, pool, lw, mid, |regs|) && Ready(code, pool, lw0, lw1, |regs|) && Ready(code, pool, skip, lw2, |regs|)
    requires |lw1.ops| < |mid.ops| <= |code.ops|
    requires code.ops[|lw1.ops|] == SkipIf(e.link, t, |lw2.ops|) && code.keep[|lw1.ops|]
    ensures Computes(h, code, pool, lw, mid, regs, w, k, regs2, t, None, Eval(h, Cut, e, regs[..lw.nregs], w))
    decreases e, 0
  {
    hide Arrives, Emitted, Lower, LowerAll, Eval, EvalAll, Expr.Fits, Decided, Perform, Code.Fits;
    ShortcutFits(e, lw.nregs);
    var hp, prog, st := Linked(h, pool), regs[..lw.nregs], Span(lw, mid);
    var k1, regs1 := LowerRuns(h, code, pool, lw0, e.x, Some(t), regs, w);
    var v := Eval(h, Cut, e.x, prog, w);
    var out := Eval(h, Cut, e, prog, w);
    ShortcutMeans(h, e, prog, w);
    if !v.Yields? {
      k, regs2 := k1, regs1;
      Fails(hp, code, st, |lw.ops|, regs, w, Span(lw0, lw1), k1, regs1, |lw1.ops|, Some(t), v, |mid.ops|, None, out);
    } else {
      ArrivesSame(hp, code, Span(lw0, lw1), |lw.ops|, regs, w, k1, regs1, |lw1.ops|, Some(t), v);
      SameProgram(regs, regs1, lw0.next, Some(t), lw.nregs);
      SkipRuns(h, code, pool, st, e.link, |lw1.ops|, t, |lw2.ops|, regs1, v);
      var to := if Decided(h, e.link, v.r) then |lw2.ops| else |lw1.ops| + 1;
      Joins(hp, code, st, |lw.ops|, regs, w, Span(lw0, lw1), k1, regs1, |lw1.ops|, Some(t), v, st, 1, regs1, to, None, v);
      if Decided(h, e.link, v.r) {
        k, regs2 := k1 + 1, regs1;
      } else {
        var k2: nat;
        k2, regs2 := LowerRuns(h, code, pool, skip, e.y, Some(t), regs1, v.w);
        k := k1 + 1 + k2;
        Joins(hp, code, st, |lw.ops|, regs, w, st, k1 + 1, regs1, to, None, v, Span(skip, lw2), k2, regs2, |lw2.ops|, Some(t), out);
        Widen(hp, code, st, |lw.ops|, regs, w, st, k, regs2, |lw2.ops|, t, out);
      }
    }
  }

  lemma SkipRuns<V, W>(h: Host<V, W>, code: Code, pool: seq<nat>, st: Stretch, link: Connective, i: nat, t: Reg, end: nat, regs: seq<V>,
                       v: Effect<V, V, W>)
    requires code.Fits(|regs|) && st.lo <= i < st.hi <= |code.ops| && code.keep[i] && code.ops[i] == SkipIf(link, t, end)
    requires v.Yields? && t < |regs| && regs[t] == v.r
    ensures Arrives(Linked(h, pool), code, st, i, regs, v.w, 1, regs, if Decided(h, link, v.r) then end else i + 1, None, v)
  {
    hide Arrives, Perform;
    var hp, op := Linked(h, pool), code.ops[i];
    assert op.WithinRegs(code.lists, |regs|);
    assert op.Reads(code.lists) == [t] && Fetch(regs, [t]) == [v.r];
    var b := if link.Coalesce? then !h.nullish(v.r) else h.truthy(v.r);
    SkipPerforms(hp, link, t, end, v.r, v.w);
    JumpArrives(hp, code, st, i, regs, v.w, b, v);
  }

  lemma SkipPerforms<V, W>(h: Host<V, W>, link: Connective, t: Reg, end: nat, v: V, w: W)
    ensures var op := SkipIf(link, t, end);
            Arity(op) == 1 && Perform(h, op, [v], w) == Test(if link.Coalesce? then !h.nullish(v) else h.truthy(v), w)
  {
    hide Ask;
  }

  lemma {:induction false} ChoiceRuns<V, W>(h: Host<V, W>, code: Code, pool: seq<nat>, lw: Lw, e: Expr, dst: Option<Reg>, regs: seq<V>, w: W)
    returns (k: nat, regs2: seq<V>)
    requires e.Fits(lw.nregs) && e.Choice? && LowerChoice(lw, e, dst).Some?
    requires Below(dst, lw.next) && lw.nregs <= |regs|
    requires Ready(code, pool, lw, LowerChoice(lw, e, dst).value.0, |regs|)
    ensures var (lw2, s) := LowerChoice(lw, e, dst).value;
            Computes(h, code, pool, lw, lw2, regs, w, k, regs2, s, dst, Eval(h, Cut, e, regs[..lw.nregs], w))
    decreases e, 1
  {
    hide Arrives, Emitted, Lower, Eval, Expr.Fits, Computes;
    ChoiceFits(e, lw.nregs);
    var (lw0, t) := Temp(lw).value;
    var (lw1, cs) := Lower(lw0, e.test, None).value;
    var test := Push(lw1, Jf(cs, 0));
    var (lw2, _) := Lower(test, e.x, Some(t)).value;
    var other := Push(lw2, J(0)).(ops := (lw2.ops + [J(0)])[|lw1.ops| := Jf(cs, |lw2.ops| + 1)]);
    var (lw3, _) := Lower(other, e.y, Some(t)).value;
    var mid := lw3.(ops := lw3.ops[|lw2.ops| := J(|lw3.ops|)]);
    var end := Settle(mid, t, dst).0;
    LowerGrows(lw0, e.test, None);
    LowerGrows(test, e.x, Some(t));
    LowerGrows(other, e.y, Some(t));
    ChoiceReady(code, pool, lw, lw0, t, lw1, cs, test, lw2, other, lw3, mid, end, dst, |regs|);
    var k1, regs1 := ChoiceBody(h, code, pool, lw, e, lw0, t, lw1, cs, test, lw2, other, lw3, mid, regs, w);
    k, regs2 := SettleRuns(h, code, pool, lw, mid, t, dst, regs, w, k1, regs1, Eval(h, Cut, e, regs[..lw.nregs], w));
  }

  lemma ChoiceReady(code: Code, pool: seq<nat>, lw: Lw, lw0: Lw, t: Reg, lw1: Lw, cs: Reg, test: Lw, lw2: Lw, other: Lw, lw3: Lw, mid: Lw,
                    end: Lw, dst: Option<Reg>, n: nat)
    requires Ok(lw) && Temp(lw) == Some((lw0, t)) && Ok(lw1) && Grows(lw0, lw1)
    requires test == Push(lw1, Jf(cs, 0)) && Ok(lw2) && Grows(test, lw2)
    requires other == Push(lw2, J(0)).(ops := (lw2.ops + [J(0)])[|lw1.ops| := Jf(cs, |lw2.ops| + 1)]) && Ok(lw3) && Grows(other, lw3)
    requires mid == lw3.(ops := lw3.ops[|lw2.ops| := J(|lw3.ops|)]) && end == Settle(mid, t, dst).0
    requires Ready(code, pool, lw, end, n)
    ensures Ok(mid) && Grows(lw, mid) && Ready(code, pool, lw, mid, n)
    ensures Ready(code, pool, lw0, lw1, n) && Ready(code, pool, test, lw2, n) && Ready(code, pool, other, lw3, n)
    ensures |lw1.ops| < |lw2.ops| < |mid.ops| == |lw3.ops| <= |code.ops|
    ensures code.ops[|lw1.ops|] == Jf(cs, |lw2.ops| + 1) && code.keep[|lw1.ops|]
    ensures code.ops[|lw2.ops|] == J(|lw3.ops|) && code.keep[|lw2.ops|]
  {
    hide Op.WithinRegs;
    ChoiceMid(lw, lw0, t, lw1, cs, test, lw2, other, lw3, mid, end, dst);
    ReadySplit(code, pool, lw, mid, end, n);
    hide Ok, Code.Fits, Settle, Temp;
    assert EmittedAt(code, mid, |lw1.ops|) && EmittedAt(code, mid, |lw2.ops|);
    PartEmitted(code, mid, lw1, |lw0.ops|);
    PartEmitted(code, mid, lw2, |test.ops|);
    PartEmitted(code, mid, lw3, |other.ops|);
  }

  lemma ChoiceMid(lw: Lw, lw0: Lw, t: Reg, lw1: Lw, cs: Reg, test: Lw, lw2: Lw, other: Lw, lw3: Lw, mid: Lw, end: Lw, dst: Option<Reg>)
    requires Ok(lw) && Temp(lw) == Some((lw0, t)) && Ok(lw1) && Grows(lw0, lw1)
    requires test == Push(lw1, Jf(cs, 0)) && Ok(lw2) && Grows(test, lw2)
    requires other == Push(lw2, J(0)).(ops := (lw2.ops + [J(0)])[|lw1.ops| := Jf(cs, |lw2.ops| + 1)]) && Ok(lw3) && Grows(other, lw3)
    requires mid == lw3.(ops := lw3.ops[|lw2.ops| := J(|lw3.ops|)]) && end == Settle(mid, t, dst).0
    ensures Ok(mid) && Grows(lw, mid) && Grows(mid, end) && |lw1.ops| < |lw2.ops| < |mid.ops| == |lw3.ops|
    ensures forall i :: 0 <= i < |lw1.ops| ==> mid.ops[i] == lw1.ops[i]
    ensures forall i :: |lw1.ops| < i < |lw2.ops| ==> mid.ops[i] == lw2.ops[i]
    ensures forall i :: |lw2.ops| < i < |lw3.ops| ==> mid.ops[i] == lw3.ops[i]
    ensures mid.ops[|lw1.ops|] == Jf(cs, |lw2.ops| + 1) && mid.ops[|lw2.ops|] == J(|lw3.ops|)
  {
    assert test.ops <= lw2.ops && other.ops <= lw3.ops;
  }

  lemma PartEmitted(code: Code, whole: Lw, part: Lw, from: nat)
    requires |code.keep| == |code.ops| && from <= |part.ops| <= |whole.ops| <= |code.ops|
    requires forall i :: from <= i < |part.ops| ==> EmittedAt(code, whole, i) && whole.ops[i] == part.ops[i]
    ensures forall i :: from <= i < |part.ops| ==> EmittedAt(code, part, i)
  {
  }

  lemma {:induction false} ChoiceBody<V, W>(h: Host<V, W>, code: Code, pool: seq<nat>, lw: Lw, e: Expr, lw0: Lw, t: Reg, lw1: Lw, cs: Reg,
                                            test: Lw, lw2: Lw, other: Lw, lw3: Lw, mid: Lw, regs: seq<V>, w: W)
    returns (k: nat, regs2: seq<V>)
    requires e.Fits(lw.nregs) && e.Choice? && lw.nregs <= |regs|
    requires Temp(lw) == Some((lw0, t)) && Lower(lw0, e.test, None) == Some((lw1, cs))
    requires test == Push(lw1, Jf(cs, 0)) && Lower(test, e.x, Some(t)) == Some((lw2, t))
    requires other == Push(lw2, J(0)).(ops := (lw2.ops + [J(0)])[|lw1.ops| := Jf(cs, |lw2.ops| + 1)])
    requires Lower(other, e.y, Some(t)) == Some((lw3, t)) && mid == lw3.(ops := lw3.ops[|lw2.ops| := J(|lw3.ops|)])
    requires Ready(code, pool, lw, mid, |regs|) && Ready(code, pool, lw0, lw1, |regs|)
    requires Ready(code, pool, test, lw2, |regs|) && Ready(code, pool, other, lw3, |regs|)
    requires |lw1.ops| < |lw2.ops| < |mid.ops| == |lw3.ops| <= |code.ops|
    requires code.ops[|lw1.ops|] == Jf(cs, |lw2.ops| + 1) && code.keep[|lw1.ops|]
    requires code.ops[|lw2.ops|] == J(|lw3.ops|) && code.keep[|lw2.ops|]
    ensures Computes(h, code, pool, lw, mid, regs, w, k, regs2, t, None, Eval(h, Cut, e, regs[..lw.nregs], w))
    decreases e, 0
  {
    hide Arrives, Emitted, Lower, Eval, Expr.Fits, Code.Fits;
    ChoiceFits(e, lw.nregs);
    var hp, prog, st := Linked(h, pool), regs[..lw.nregs], Span(lw, mid);
    var k1, regs1 := LowerRuns(h, code, pool, lw0, e.test, None, regs, w);
    var v := Eval(h, Cut, e.test, prog, w);
    var out := Eval(h, Cut, e, prog, w);
    ChoiceMeans(h, e, prog, w);
    if !v.Yields? {
      k, regs2 := k1, regs1;
      Fails(hp, code, st, |lw.ops|, regs, w, Span(lw0, lw1), k1, regs1, |lw1.ops|, None, v, |mid.ops|, None, out);
    } else {
      ArrivesSame(hp, code, Span(lw0, lw1), |lw.ops|, regs, w, k1, regs1, |lw1.ops|, None, v);
      SameProgram(regs, regs1, lw0.next, None, lw.nregs);
      SkipRuns(h, code, pool, st, And, |lw1.ops|, cs, |lw2.ops| + 1, regs1, v);
      var to := if h.truthy(v.r) then |lw1.ops| + 1 else |lw2.ops| + 1;
      Joins(hp, code, st, |lw.ops|, regs, w, Span(lw0, lw1), k1, regs1, |lw1.ops|, None, v, st, 1, regs1, to, None, v);
      var k2: nat;
      if h.truthy(v.r) {
        k2, regs2 := ArmRuns(h, code, pool, st, test, e.x, t, lw2, |lw3.ops|, e, regs1, v.w);
      } else {
        k2, regs2 := LowerRuns(h, code, pool, other, e.y, Some(t), regs1, v.w);
        Widen(hp, code, st, |lw2.ops| + 1, regs1, v.w, Span(other, lw3), k2, regs2, |lw3.ops|, t, out);
      }
      k := k1 + 1 + k2;
      Joins(hp, code, st, |lw.ops|, regs, w, st, k1 + 1, regs1, to, None, v, st, k2, regs2, |lw3.ops|, None, out);
    }
  }

  /** The first arm of a choice, and the jump over the second. */
  lemma {:induction false} ArmRuns<V, W>(h: Host<V, W>, code: Code, pool: seq<nat>, st: Stretch, lw: Lw, x: Expr, t: Reg, lw2: Lw, end: nat,
                                         e: Expr, regs: seq<V>, w: W)
    returns (k: nat, regs2: seq<V>)
    requires x < e && x.Fits(lw.nregs) && lw.nregs <= |regs| && Lower(lw, x, Some(t)) == Some((lw2, t)) && st.low <= t < lw.next
    requires Ready(code, pool, lw, lw2, |regs|) && Inner(Span(lw, lw2), st) && st.lo <= |lw2.ops| < st.hi <= |code.ops|
    requires code.ops[|lw2.ops|] == J(end) && code.keep[|lw2.ops|]
    ensures var out := Eval(h, Cut, x, regs[..lw.nregs], w);
            && Arrives(Linked(h, pool), code, st, |lw.ops|, regs, w, k, regs2, end, None, out)
            && (out.Yields? ==> t < |regs2| && regs2[t] == out.r)
    decreases e, 0, 0
  {
    hide Arrives, Emitted, Lower;
    var hp := Linked(h, pool);
    var k1, regs1 := LowerRuns(h, code, pool, lw, x, Some(t), regs, w);
    var out := Eval(h, Cut, x, regs[..lw.nregs], w);
    if out.Yields? {
      ArrivesSame(hp, code, Span(lw, lw2), |lw.ops|, regs, w, k1, regs1, |lw2.ops|, Some(t), out);
      JRuns(hp, code, st, |lw2.ops|, end, regs1, out);
      k, regs2 := k1 + 1, regs1;
      Joins(hp, code, st, |lw.ops|, regs, w, Span(lw, lw2), k1, regs1, |lw2.ops|, Some(t), out, st, 1, regs1, end, None, out);
    } else {
      k, regs2 := k1, regs1;
      Fails(hp, code, st, |lw.ops|, regs, w, Span(lw, lw2), k1, regs1, |lw2.ops|, Some(t), out, end, None, out);
    }
  }

  lemma JRuns<V, W>(h: Host<V, W>, code: Code, st: Stretch, i: nat, end: nat, regs: seq<V>, v: Effect<V, V, W>)
    requires code.Fits(|regs|) && st.lo <= i < st.hi <= |code.ops| && code.keep[i] && code.ops[i] == J(end) && v.Yields?
    ensures Arrives(h, code, st, i, regs, v.w, 1, regs, end, None, v)
  {
    hide Arrives;
    assert code.ops[i].WithinRegs(code.lists, |regs|);
    JumpArrives(h, code, st, i, regs, v.w, true, v);
  }
}
