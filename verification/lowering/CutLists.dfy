/** Lists whose length does not fit sixteen bits: expressions without one are lowered to what they mean, and
    of expressions that skip nothing, only those. */
module CutLists {
  import opened Numbers
  import opened Bytecode
  import opened Machine
  import opened Expressions

  // ----- Narrow expressions -----

  lemma NarrowTaken<T>(kind: Kind, vs: seq<T>)
    requires kind.Takes(|vs|)
    ensures Fits16(kind.Listing(|vs|)) ==> Taken(Cut, kind, vs) == vs
    ensures !Fits16(kind.Listing(|vs|)) ==> |Taken(Cut, kind, vs)| < |vs|
  {
  }

  lemma NarrowMethod(e: Expr)
    requires e.IsMethodCall() && e.Narrow()
    ensures e.parts[0].Narrow() && Expr.AllNarrow(e.parts[0].parts) && Expr.AllNarrow(e.parts[1..]) && Fits16(|e.parts| - 1)
  {
    assert e.parts[0].Narrow();
  }

  /** Evaluating e as it stands comes to a list that does not fit. */
  predicate Meets<V, W>(h: Host<V, W>, e: Expr, regs: seq<V>, w: W)
    requires e.Fits(|regs|)
    decreases e, 1
  {
    match e
    case Strict(kind, parts) =>
      if e.IsMethodCall() then
        assert parts[0].Fits(|regs|);
        MeetsAny(h, parts[0].parts, regs, w) ||
        var vs := EvalAll(h, Full, parts[0].parts, regs, w);
        vs.Yields? &&
        var f := Finish(h, Property, parts[0].parts, vs.r, vs.w);
        f.Yields? && (MeetsAny(h, parts[1..], regs, f.w) || (EvalAll(h, Full, parts[1..], regs, f.w).Yields? && !Fits16(|parts| - 1)))
      else
        MeetsAny(h, parts, regs, w) || (EvalAll(h, Full, parts, regs, w).Yields? && !Fits16(kind.Listing(|parts|)))
    case Shortcut(link, x, y) =>
      Meets(h, x, regs, w) ||
      var v := Eval(h, Full, x, regs, w);
      v.Yields? && !Decided(h, link, v.r) && Meets(h, y, regs, v.w)
    case Choice(c, x, y) =>
      Meets(h, c, regs, w) ||
      var v := Eval(h, Full, c, regs, w);
      v.Yields? && Meets(h, if h.truthy(v.r) then x else y, regs, v.w)
    case _ => false
  }

  predicate MeetsAny<V, W>(h: Host<V, W>, es: seq<Expr>, regs: seq<V>, w: W)
    requires Expr.AllFit(es, |regs|)
    decreases es, 0
  {
    es != [] &&
    (Meets(h, es[0], regs, w) ||
     var v := Eval(h, Full, es[0], regs, w);
     v.Yields? && MeetsAny(h, es[1..], regs, v.w))
  }

  /** As long as an evaluation comes to no such list, cutting the lengths of lists does not change it. */
  lemma {:induction false} UnmetMeans<V, W>(h: Host<V, W>, e: Expr, regs: seq<V>, w: W)
    requires e.Fits(|regs|) && !Meets(h, e, regs, w)
    ensures Eval(h, Cut, e, regs, w) == Eval(h, Full, e, regs, w)
    decreases e, 1
  {
    hide Finish, Taken, Decided, LeafValue, MeetsAny, Kind.Listing;
    match e
    case Strict(kind, parts) =>
      if e.IsMethodCall() {
        var m := parts[0];
        assert m.Fits(|regs|);
        UnmetAllMean(h, m.parts, regs, w);
        var vs := EvalAll(h, Full, m.parts, regs, w);
        if vs.Yields? {
          var f := Finish(h, Property, m.parts, vs.r, vs.w);
          if f.Yields? {
            UnmetAllMean(h, parts[1..], regs, f.w);
          }
        }
      } else {
        UnmetAllMean(h, parts, regs, w);
        var vs := EvalAll(h, Full, parts, regs, w);
        if vs.Yields? {
          NarrowTaken(kind, vs.r);
        }
      }
    case Shortcut(link, x, y) =>
      UnmetMeans(h, x, regs, w);
      var v := Eval(h, Full, x, regs, w);
      if v.Yields? && !Decided(h, link, v.r) {
        UnmetMeans(h, y, regs, v.w);
      }
    case Choice(c, x, y) =>
      UnmetMeans(h, c, regs, w);
      var v := Eval(h, Full, c, regs, w);
      if v.Yields? {
        UnmetMeans(h, if h.truthy(v.r) then x else y, regs, v.w);
      }
    case _ =>
  }

  lemma {:induction false} UnmetAllMean<V, W>(h: Host<V, W>, es: seq<Expr>, regs: seq<V>, w: W)
    requires Expr.AllFit(es, |regs|) && !MeetsAny(h, es, regs, w)
    ensures EvalAll(h, Cut, es, regs, w) == EvalAll(h, Full, es, regs, w)
    decreases es, 0
  {
    hide Eval, Meets;
    if es != [] {
      UnmetMeans(h, es[0], regs, w);
      var v := Eval(h, Full, es[0], regs, w);
      if v.Yields? {
        UnmetAllMean(h, es[1..], regs, v.w);
      }
    }
  }

  lemma {:induction false} NarrowUnmet<V, W>(h: Host<V, W>, e: Expr, regs: seq<V>, w: W)
    requires e.Fits(|regs|) && e.Narrow()
    ensures !Meets(h, e, regs, w)
    decreases e, 1
  {
    hide Finish, Decided, MeetsAny, Eval, EvalAll;
    match e
    case Strict(kind, parts) =>
      if e.IsMethodCall() {
        NarrowMethod(e);
        var m := parts[0];
        assert m.Fits(|regs|);
        NarrowAllUnmet(h, m.parts, regs, w);
        var vs := EvalAll(h, Full, m.parts, regs, w);
        if vs.Yields? {
          var f := Finish(h, Property, m.parts, vs.r, vs.w);
          if f.Yields? {
            NarrowAllUnmet(h, parts[1..], regs, f.w);
          }
        }
      } else {
        NarrowAllUnmet(h, parts, regs, w);
      }
    case Shortcut(link, x, y) =>
      NarrowUnmet(h, x, regs, w);
      var v := Eval(h, Full, x, regs, w);
      if v.Yields? {
        NarrowUnmet(h, y, regs, v.w);
      }
    case Choice(c, x, y) =>
      NarrowUnmet(h, c, regs, w);
      var v := Eval(h, Full, c, regs, w);
      if v.Yields? {
        NarrowUnmet(h, if h.truthy(v.r) then x else y, regs, v.w);
      }
    case _ =>
  }

  lemma {:induction false} NarrowAllUnmet<V, W>(h: Host<V, W>, es: seq<Expr>, regs: seq<V>, w: W)
    requires Expr.AllFit(es, |regs|) && Expr.AllNarrow(es)
    ensures !MeetsAny(h, es, regs, w)
    decreases es, 0
  {
    hide Eval, Meets;
    if es != [] {
      NarrowUnmet(h, es[0], regs, w);
      var v := Eval(h, Full, es[0], regs, w);
      if v.Yields? {
        NarrowAllUnmet(h, es[1..], regs, v.w);
      }
    }
  }

  /** If all lists fit, cutting their lengths changes nothing. */
  lemma NarrowMeans<V, W>(h: Host<V, W>, e: Expr, regs: seq<V>, w: W)
    requires e.Fits(|regs|) && e.Narrow()
    ensures Eval(h, Cut, e, regs, w) == Eval(h, Full, e, regs, w)
  {
    hide Eval, Meets, Expr.Narrow, Expr.Fits;
    NarrowUnmet(h, e, regs, w);
    UnmetMeans(h, e, regs, w);
  }

  // ----- A host that counts -----

  function Sum(vs: seq<nat>): nat {
    if vs == [] then 0 else vs[0] + 1 + Sum(vs[1..])
  }

  lemma {:induction false} SumOfFirst(vs: seq<nat>, n: nat)
    requires n <= |vs|
    ensures Sum(vs[..n]) + (|vs| - n) <= Sum(vs)
  {
    if n > 0 {
      assert vs[..n][1..] == vs[1..][..n - 1];
      SumOfFirst(vs[1..], n - 1);
    } else if vs != [] {
      assert vs[1..][..0] == [];
      SumOfFirst(vs[1..], 0);
    }
  }

  /** Everything that takes values comes out as their number and sum. */
  function Counter(): Host<nat, ()> {
    Host(
      (n: Number) => 0,
      (v: nat) => true,
      (v: nat) => false,
      (op, w) => 0,
      vs => Sum(vs),
      (op, vs, w) => (Sum(vs), ()),
      (op, vs, w) => Yields(Sum(vs), ()),
      (un, v, w) => Yields(v, ()),
      (bin, l, r, w) => Yields(l + r, ()),
      (op, v, w) => Ends(Returned(v), ()),
      (v, w) => Ends(Uncaught(v), ()))
  }

  // ----- Expressions that skip nothing -----

  /** All parts are evaluated, and none fails by itself. */
  predicate Straight(e: Expr) {
    match e
    case Leaf(op) => !op.Fail?
    case Strict(_, parts) => forall i :: 0 <= i < |parts| ==> Straight(parts[i])
    case Shortcut(_, _, _) => false
    case Choice(_, _, _) => false
    case _ => true
  }

  predicate AllStraight(es: seq<Expr>) {
    forall i :: 0 <= i < |es| ==> Straight(es[i])
  }

  predicate AtMost(a: seq<nat>, b: seq<nat>) {
    |a| == |b| && forall i :: 0 <= i < |a| ==> a[i] <= b[i]
  }

  ghost predicate Below(a: seq<nat>, b: seq<nat>) {
    AtMost(a, b) && exists i :: 0 <= i < |a| && a[i] < b[i]
  }

  lemma {:induction false} SumRises(a: seq<nat>, b: seq<nat>)
    requires AtMost(a, b)
    ensures Sum(a) <= Sum(b) && (Below(a, b) ==> Sum(a) < Sum(b))
  {
    if a != [] {
      SumRises(a[1..], b[1..]);
      if Below(a, b) && a[0] == b[0] {
        var i :| 0 <= i < |a| && a[i] < b[i];
        assert a[1..][i - 1] < b[1..][i - 1];
      }
    }
  }

  /** What a list adds up to when only its first n items are taken. */
  lemma CutSum(a: seq<nat>, b: seq<nat>, n: nat)
    requires AtMost(a, b) && n <= |a|
    ensures Sum(a[..n]) <= Sum(b) && (n < |a| || Below(a, b) ==> Sum(a[..n]) < Sum(b))
  {
    SumRises(a, b);
    SumOfFirst(a, n);
    assert a[..|a|] == a;
  }

  /** The value of a text after a dot does not count, so the value before it must. */
  ghost predicate Counts(kind: Kind, parts: seq<Expr>, a: seq<nat>, b: seq<nat>)
    requires kind.Takes(|parts|) && |a| == |b| == |parts|
  {
    if kind.Property? && parts[1].Text? then a[0] < b[0] else Below(a, b)
  }

  lemma FinishCounts(kind: Kind, parts: seq<Expr>, a: seq<nat>, b: seq<nat>)
    requires kind.Takes(|parts|) && |a| == |parts| && AtMost(a, b)
    ensures var cut, full := Finish(Counter(), kind, parts, Taken(Cut, kind, a), ()), Finish(Counter(), kind, parts, b, ());
            && cut.Yields? && full.Yields? && cut.r <= full.r
            && (Counts(kind, parts, a, b) || !Fits16(kind.Listing(|parts|)) ==> cut.r < full.r)
  {
    NarrowTaken(kind, a);
    var n := |Taken(Cut, kind, a)|;
    assert Taken(Cut, kind, a) == a[..n];
    CutSum(a, b, n);
    if kind.Property? && parts[1].Text? {
      assert a[..1] == [a[0]] && b[..1] == [b[0]];
      assert [a[0]][1..] == [] && [b[0]][1..] == [];
    }
  }

  lemma {:induction false} CutCounts(e: Expr, regs: seq<nat>)
    requires e.Fits(|regs|) && Straight(e)
    ensures var cut, full := Eval(Counter(), Cut, e, regs, ()), Eval(Counter(), Full, e, regs, ());
            cut.Yields? && full.Yields? && cut.r <= full.r && (!e.Narrow() ==> cut.r < full.r)
    decreases e, 1
  {
    hide Finish, Taken, Counter;
    match e
    case Strict(kind, parts) =>
      if e.IsMethodCall() {
        CutMethodCounts(e, regs);
      } else {
        CutAllCount(parts, regs);
        var a, b := EvalAll(Counter(), Cut, parts, regs, ()).r, EvalAll(Counter(), Full, parts, regs, ()).r;
        FinishCounts(kind, parts, a, b);
        StrictEvals(e, regs);
        if !Expr.AllNarrow(parts) {
          var i :| 0 <= i < |parts| && !parts[i].Narrow();
          assert a[i] < b[i];
        }
      }
    case _ => AtomCounts(e, regs);
  }

  lemma StrictEvals(e: Expr, regs: seq<nat>)
    requires e.Fits(|regs|) && e.Strict? && !e.IsMethodCall()
    requires EvalAll(Counter(), Cut, e.parts, regs, ()).Yields? && EvalAll(Counter(), Full, e.parts, regs, ()).Yields?
    ensures var a, b := EvalAll(Counter(), Cut, e.parts, regs, ()).r, EvalAll(Counter(), Full, e.parts, regs, ()).r;
            && Eval(Counter(), Cut, e, regs, ()) == Finish(Counter(), e.kind, e.parts, Taken(Cut, e.kind, a), ())
            && Eval(Counter(), Full, e, regs, ()) == Finish(Counter(), e.kind, e.parts, b, ())
  {
    hide Finish, Taken, Counter, EvalAll;
    assert EvalAll(Counter(), Cut, e.parts, regs, ()).w == EvalAll(Counter(), Full, e.parts, regs, ()).w == ();
  }

  lemma AtomCounts(e: Expr, regs: seq<nat>)
    requires e.Fits(|regs|) && Straight(e) && !e.Strict?
    ensures var cut, full := Eval(Counter(), Cut, e, regs, ()), Eval(Counter(), Full, e, regs, ()); cut == full && cut.Yields? && e.Narrow()
  {
  }

  lemma {:induction false} CutAllCount(es: seq<Expr>, regs: seq<nat>)
    requires Expr.AllFit(es, |regs|) && AllStraight(es)
    ensures var cut, full := EvalAll(Counter(), Cut, es, regs, ()), EvalAll(Counter(), Full, es, regs, ());
            && cut.Yields? && full.Yields? && AtMost(cut.r, full.r) && |cut.r| == |es|
            && forall i :: 0 <= i < |es| && !es[i].Narrow() ==> cut.r[i] < full.r[i]
    decreases es, 0
  {
    hide Eval, Counter, Straight, Expr.Narrow;
    if es != [] {
      CutCounts(es[0], regs);
      CutAllCount(es[1..], regs);
      assert es == [es[0]] + es[1..];
      assert Eval(Counter(), Cut, es[0], regs, ()).w == Eval(Counter(), Full, es[0], regs, ()).w == ();
    }
  }

  lemma {:induction false} CutMethodCounts(e: Expr, regs: seq<nat>)
    requires e.Fits(|regs|) && Straight(e) && e.IsMethodCall()
    ensures var cut, full := Eval(Counter(), Cut, e, regs, ()), Eval(Counter(), Full, e, regs, ());
            cut.Yields? && full.Yields? && cut.r <= full.r && (!e.Narrow() ==> cut.r < full.r)
    decreases e, 0
  {
    hide Finish, Taken, Counter, EvalAll, Straight;
    var m, rest := e.parts[0], e.parts[1..];
    MethodStraight(e, |regs|);
    CutAllCount(m.parts, regs);
    CutAllCount(rest, regs);
    var a, b := EvalAll(Counter(), Cut, m.parts, regs, ()).r, EvalAll(Counter(), Full, m.parts, regs, ()).r;
    var c, d := EvalAll(Counter(), Cut, rest, regs, ()).r, EvalAll(Counter(), Full, rest, regs, ()).r;
    FinishCounts(Property, m.parts, a, b);
    TakenProperty(a);
    var f, g := Finish(Counter(), Property, m.parts, a, ()).r, Finish(Counter(), Property, m.parts, b, ()).r;
    assert EvalAll(Counter(), Cut, m.parts, regs, ()).w == EvalAll(Counter(), Full, m.parts, regs, ()).w == ();
    assert EvalAll(Counter(), Cut, rest, regs, ()).w == EvalAll(Counter(), Full, rest, regs, ()).w == ();
    assert Finish(Counter(), Property, m.parts, a, ()).w == Finish(Counter(), Property, m.parts, b, ()).w == ();
    var n := Low16(|c|);
    CallSums(f, a[0], c, g, b[0], d);
    ActSums(Call(0, 0, 0, 0, n), [f, a[0]] + c[..n]);
    ActSums(Call(0, 0, 0, 0, |d|), [g, b[0]] + d);
    assert d[..|d|] == d;
    if !e.Narrow() {
      WhichWide(e, m, a, b, c, d, f, g);
    }
  }

  lemma MethodStraight(e: Expr, nregs: nat)
    requires e.Fits(nregs) && Straight(e) && e.IsMethodCall()
    ensures e.parts[0].Fits(nregs) && Expr.AllFit(e.parts[0].parts, nregs) && AllStraight(e.parts[0].parts)
    ensures Expr.AllFit(e.parts[1..], nregs) && AllStraight(e.parts[1..])
  {
    assert e.parts[0].Fits(nregs) && Straight(e.parts[0]);
  }

  lemma TakenProperty(vs: seq<nat>)
    ensures Taken(Cut, Property, vs) == vs
  {
  }

  lemma ActSums(op: Op, vs: seq<nat>)
    ensures Counter().act(op, vs, ()) == Yields(Sum(vs), ())
  {
  }

  /** What a call adds up to. */
  lemma CallSums(f: nat, o: nat, c: seq<nat>, g: nat, p: nat, d: seq<nat>)
    requires f <= g && o <= p && AtMost(c, d)
    ensures var n := Low16(|c|);
            && Sum([f, o] + c[..n]) <= Sum([g, p] + d)
            && (f < g || o < p || Below(c, d) || !Fits16(|c|) ==> Sum([f, o] + c[..n]) < Sum([g, p] + d))
  {
    var a, b, n := [f, o] + c, [g, p] + d, Low16(|c|);
    assert a[..2 + n] == [f, o] + c[..n];
    CutSum(a, b, 2 + n);
    if f < g {
      assert a[0] < b[0];
    } else if o < p {
      assert a[1] < b[1];
    } else if Below(c, d) {
      var i :| 0 <= i < |c| && c[i] < d[i];
      assert a[2 + i] < b[2 + i];
    }
  }

  /** In a wide method call the function, the object, an argument or the number of arguments tells. */
  lemma WhichWide(e: Expr, m: Expr, a: seq<nat>, b: seq<nat>, c: seq<nat>, d: seq<nat>, f: nat, g: nat)
    requires e.IsMethodCall() && m == e.parts[0] && m.kind.Takes(|m.parts|) && !e.Narrow() && |a| == |b| == |m.parts| && |c| == |d| == |e.parts| - 1
    requires AtMost(a, b) && AtMost(c, d)
    requires forall i :: 0 <= i < |a| && !m.parts[i].Narrow() ==> a[i] < b[i]
    requires forall i :: 0 <= i < |c| && !e.parts[1..][i].Narrow() ==> c[i] < d[i]
    requires Counts(Property, m.parts, a, b) ==> f < g
    ensures f < g || Below(c, d) || !Fits16(|c|)
  {
    if Fits16(|c|) {
      var i :| 0 <= i < |e.parts| && !e.parts[i].Narrow();
      if i > 0 {
        assert e.parts[1..][i - 1] == e.parts[i] && c[i - 1] < d[i - 1];
      } else {
        var j :| 0 <= j < |m.parts| && !m.parts[j].Narrow();
        assert a[j] < b[j];
      }
    }
  }

  /** An expression that skips nothing comes out the same with list lengths cut, on the host that counts, if and
      only if all its lists fit; and then it does on all hosts. */
  lemma CutExactly(e: Expr, nregs: nat)
    requires e.Fits(nregs) && Straight(e)
    ensures e.Narrow() <==> Eval(Counter(), Cut, e, Blank(nregs), ()) == Eval(Counter(), Full, e, Blank(nregs), ())
  {
    hide Eval, Counter;
    if e.Narrow() {
      NarrowMeans(Counter(), e, Blank(nregs), ());
    } else {
      CutCounts(e, Blank(nregs));
    }
  }

  function Blank(n: nat): (regs: seq<nat>)
    ensures |regs| == n
  {
    seq(n, _ => 0)
  }
}
