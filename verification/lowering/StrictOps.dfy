/** The op that concludes a strict expression: it reads the operands in their order and does with
    them what the expression does with its parts. */
module StrictOps {
  import opened Bytecode
  import opened Machine
  import opened Expressions
  import opened Lowering
  import opened Segments

  /** The values of the operands, and of the parts they come from: what is missing among the operands
      is the number or the text that the op itself holds. */
  ghost predicate Stands<V, W>(h: Host<V, W>, kind: Kind, parts: seq<Expr>, some: seq<V>, all: seq<V>)
    requires kind.Takes(|parts|)
  {
    && |some| == |Operands(kind, parts)| && |all| == |parts|
    && if kind.Property? && parts[1].Text? then some == all[..1]
       else if kind.Infix? && parts[1].Literal? then some == all[..1] && all[1] == h.num(parts[1].n)
       else if kind.Infix? && parts[0].Literal? then some == all[1..] && all[0] == h.num(parts[0].n)
       else some == all
  }

  /** Leaving out a literal next to an operator or a text after a dot changes nothing else. */
  lemma OperandsSuffice<V, W>(h: Host<V, W>, kind: Kind, parts: seq<Expr>, regs: seq<V>, w: W)
    requires kind.Takes(|parts|) && Expr.AllFit(parts, |regs|) && Expr.AllFit(Operands(kind, parts), |regs|)
    ensures var some, all := EvalAll(h, Cut, Operands(kind, parts), regs, w), EvalAll(h, Cut, parts, regs, w);
            if all.Yields? then some.Yields? && some.w == all.w && Stands(h, kind, parts, some.r, all.r) else some == all
  {
    if Operands(kind, parts) != parts {
      PairEval(h, parts, regs, w);
    }
  }

  lemma PairEval<V, W>(h: Host<V, W>, parts: seq<Expr>, regs: seq<V>, w: W)
    requires |parts| == 2 && Expr.AllFit(parts, |regs|)
    ensures EvalAll(h, Cut, parts[..1], regs, w) == One(Eval(h, Cut, parts[0], regs, w))
    ensures EvalAll(h, Cut, parts[1..], regs, w) == One(Eval(h, Cut, parts[1], regs, w))
    ensures var v := Eval(h, Cut, parts[0], regs, w);
            EvalAll(h, Cut, parts, regs, w) ==
              if !v.Yields? then Failed(v) else
              var u := Eval(h, Cut, parts[1], regs, v.w);
              if u.Yields? then Yields([v.r, u.r], u.w) else Failed(u)
  {
    assert parts[1..] == [parts[1]] && parts[..1] == [parts[0]];
    SingleEval(h, parts[0], regs, w);
    SingleEval(h, parts[1], regs, w);
    var v := Eval(h, Cut, parts[0], regs, w);
    if v.Yields? {
      SingleEval(h, parts[1], regs, v.w);
      var u := Eval(h, Cut, parts[1], regs, v.w);
      assert EvalAll(h, Cut, parts[1..], regs, v.w) == One(u);
      if u.Yields? {
        assert [v.r] + [u.r] == [v.r, u.r];
      }
    }
  }

  function One<V, W>(v: Effect<V, V, W>): Effect<seq<V>, V, W> {
    if v.Yields? then Yields([v.r], v.w) else Failed(v)
  }

  lemma SingleEval<V, W>(h: Host<V, W>, e: Expr, regs: seq<V>, w: W)
    requires e.Fits(|regs|)
    ensures EvalAll(h, Cut, [e], regs, w) == One(Eval(h, Cut, e, regs, w))
  {
    var v := Eval(h, Cut, e, regs, w);
    assert [e][1..] == [];
    if v.Yields? {
      assert EvalAll(h, Cut, [e][1..], regs, v.w) == Yields([], v.w);
      assert [v.r] + [] == [v.r];
    }
  }

  lemma OpReads(kind: Kind, parts: seq<Expr>, slots: seq<Reg>, a: nat, c: nat, d: Reg, lists: seq<Reg>)
    requires kind.Takes(|parts|) && |slots| == |Operands(kind, parts)|
    requires a + |Listed(kind, slots)| <= |lists| && lists[a..a + |Listed(kind, slots)|] == Listed(kind, slots)
    ensures var op := OpOf(kind, parts, slots, a, c, d);
            op.ListFits(lists) && op.Reads(lists) == Taken(Cut, kind, slots) && op.HasDest() && op.d == d
  {
    hide OpOf, Op.Reads, Op.ListFits, Op.HasDest;
    if kind.Invoke? || kind.Build? {
      CallOpReads(kind, parts, slots, a, c, d, lists);
    } else if kind.ListOf? || kind.RecordOf? {
      ListOpReads(kind, parts, slots, a, c, d, lists);
    } else {
      PlainOpReads(kind, parts, slots, a, c, d, lists);
    }
  }

  lemma PlainOpReads(kind: Kind, parts: seq<Expr>, slots: seq<Reg>, a: nat, c: nat, d: Reg, lists: seq<Reg>)
    requires !kind.Invoke? && !kind.Build? && !kind.ListOf? && !kind.RecordOf?
    requires kind.Takes(|parts|) && |slots| == |Operands(kind, parts)|
    ensures var op := OpOf(kind, parts, slots, a, c, d);
            op.ListFits(lists) && op.Reads(lists) == Taken(Cut, kind, slots) && op.HasDest() && op.d == d
  {
  }

  lemma CallOpReads(kind: Kind, parts: seq<Expr>, slots: seq<Reg>, a: nat, c: nat, d: Reg, lists: seq<Reg>)
    requires (kind.Invoke? || kind.Build?) && kind.Takes(|parts|) && |slots| == |Operands(kind, parts)|
    requires a + |Listed(kind, slots)| <= |lists| && lists[a..a + |Listed(kind, slots)|] == Listed(kind, slots)
    ensures var op := OpOf(kind, parts, slots, a, c, d);
            op.ListFits(lists) && op.Reads(lists) == Taken(Cut, kind, slots) && op.HasDest() && op.d == d
  {
    hide Taken;
    TakenCall(kind, slots);
    FirstOf(lists, a, slots[1..], Low16(|slots| - 1));
  }

  lemma ListOpReads(kind: Kind, parts: seq<Expr>, slots: seq<Reg>, a: nat, c: nat, d: Reg, lists: seq<Reg>)
    requires (kind.ListOf? || kind.RecordOf?) && kind.Takes(|parts|) && |slots| == |Operands(kind, parts)|
    requires a + |slots| <= |lists| && lists[a..a + |slots|] == slots
    ensures var op := OpOf(kind, parts, slots, a, c, d);
            op.ListFits(lists) && op.Reads(lists) == Taken(Cut, kind, slots) && op.HasDest() && op.d == d
  {
    FirstOf(lists, a, slots, Low16(|slots|));
  }

  lemma TakenCall(kind: Kind, slots: seq<Reg>)
    requires (kind.Invoke? || kind.Build?) && slots != []
    ensures Taken(Cut, kind, slots) == [slots[0]] + slots[1..][..Low16(|slots| - 1)]
  {
  }

  lemma FirstOf(lists: seq<Reg>, a: nat, listed: seq<Reg>, n: nat)
    requires n <= |listed| && a + |listed| <= |lists| && lists[a..a + |listed|] == listed
    ensures lists[a..a + n] == listed[..n]
  {
    forall i | 0 <= i < n ensures lists[a..a + n][i] == listed[i] {
      assert listed[i] == lists[a..a + |listed|][i];
    }
  }

  /** Given the values of its operands, the op does what the strict kind does with those of its parts. */
  lemma OpPerforms<V, W>(h: Host<V, W>, pool: seq<nat>, kind: Kind, parts: seq<Expr>, slots: seq<Reg>, a: nat, c: nat, d: Reg,
                         some: seq<V>, all: seq<V>, w: W)
    requires kind.Takes(|parts|) && |slots| == |Operands(kind, parts)| && Stands(h, kind, parts, some, all)
    requires kind.Property? && parts[1].Text? ==> c < |pool| && pool[c] == parts[1].k
    ensures var op := OpOf(kind, parts, slots, a, c, d);
            && |Taken(Cut, kind, some)| >= Arity(op)
            && Perform(Linked(h, pool), op, Taken(Cut, kind, some), w) == FromEffect(Finish(h, kind, parts, Taken(Cut, kind, all), w))
  {
    hide Op.Reads, Decide, Operands, Perform;
    if kind.Prefix? || kind.Infix? || kind.ListOf? {
      OperatorPerforms(h, pool, kind, parts, slots, a, c, d, some, all, w);
    } else {
      OpAsks(Linked(h, pool), kind, parts, slots, a, c, d, Taken(Cut, kind, some), w);
      OpBare(pool, kind, parts, slots, a, c, d);
    }
  }

  lemma OperatorPerforms<V, W>(h: Host<V, W>, pool: seq<nat>, kind: Kind, parts: seq<Expr>, slots: seq<Reg>, a: nat, c: nat, d: Reg,
                               some: seq<V>, all: seq<V>, w: W)
    requires kind.Takes(|parts|) && |slots| == |Operands(kind, parts)| && Stands(h, kind, parts, some, all)
    requires kind.Prefix? || kind.Infix? || kind.ListOf?
    ensures var op := OpOf(kind, parts, slots, a, c, d);
            && |Taken(Cut, kind, some)| >= Arity(op)
            && Perform(Linked(h, pool), op, Taken(Cut, kind, some), w) == FromEffect(Finish(h, kind, parts, Taken(Cut, kind, all), w))
  {
    hide Op.Reads, Decide, Operands, Ask, Bare;
  }

  lemma OpAsks<V, W>(h: Host<V, W>, kind: Kind, parts: seq<Expr>, slots: seq<Reg>, a: nat, c: nat, d: Reg, some: seq<V>, w: W)
    requires kind.Takes(|parts|) && |slots| == |Operands(kind, parts)| && !kind.Prefix? && !kind.Infix? && !kind.ListOf?
    ensures var op := OpOf(kind, parts, slots, a, c, d); Arity(op) == 0 && Perform(h, op, some, w) == Ask(h, op, some, w)
  {
    hide Op.Reads, Decide, Ask, Bare;
  }

  /** The op as the host sees it. */
  function Asked(kind: Kind, parts: seq<Expr>, pool: seq<nat>): Op
    requires kind.Takes(|parts|)
  {
    match kind
    case Property => if parts[1].Text? then MemberK(0, 0, parts[1].k) else Member(0, 0, 0)
    case Invoke => Call(0, 0, NOSLOT, 0, Low16(|parts| - 1))
    case Build => New(0, 0, 0, Low16(|parts| - 1))
    case Spread => Apply(0, 0, 0, 0)
    case BuildSpread => Construct(0, 0, 0)
    case RecordOf => Object(0, 0, Low16(|parts|))
    case FunctionAt(entry) => Closure(0, entry, 0, 0)
    case _ => Keys(0, 0)
  }

  lemma OpBare(pool: seq<nat>, kind: Kind, parts: seq<Expr>, slots: seq<Reg>, a: nat, c: nat, d: Reg)
    requires kind.Takes(|parts|) && |slots| == |Operands(kind, parts)| && !kind.Prefix? && !kind.Infix? && !kind.ListOf?
    requires kind.Property? && parts[1].Text? ==> c < |pool| && pool[c] == parts[1].k
    ensures var op := OpOf(kind, parts, slots, a, c, d);
            !op.Pure() && op.Safe() == kind.FunctionAt? && Resolve(Bare(op), pool) == Asked(kind, parts, pool)
            && (op.Safe() ==> Bare(op) == Asked(kind, parts, pool))
  {
  }
}
