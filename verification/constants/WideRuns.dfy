/** What being left too early does: the ring runs differently once it is rewritten. So functions of a given
    width are all rewritten soundly exactly if the width is at most 63, or too large to be rewritten at all. */
module WideRuns {
  import opened Basics
  import opened Numbers
  import opened Machine
  import opened Values
  import opened Programs
  import opened Solutions
  import opened Worklist
  import opened Ordered
  import opened WideCycles

  // ----- How the ring runs -----

  /** Nothing is folded, all that is unknown is one, and the world counts how often a one is used. */
  function Meter(): Ops<nat> {
    Ops((_, _) => None, (_, _, _) => None, (_, _, w) => Yields(Undef, w), (_, _, _, w) => Yields(Undef, w),
        (tag, vs, w) => Yields(Numeric(ONE), if tag == 1 && vs == [Numeric(ONE)] then w + 1 else w))
  }

  /** The slots after q times around: the first q of the chain are one. */
  function Shifted(width: nat, q: nat): (vals: seq<Val>)
    ensures |vals| == width && forall i: nat :: i < width ==> vals[i] == Numeric(if i < q && i < CHAIN then ONE else ZERO)
  {
    seq(width, i => Numeric(if i < q && i < CHAIN then ONE else ZERO))
  }

  lemma {:induction false} ClearRuns(vals: seq<Val>, i: nat, w: nat)
    requires i <= |vals| && forall j: nat :: j < i ==> vals[j] == Numeric(ZERO)
    ensures Exec(Meter(), Clear(i, |vals|), vals, w) == Goes(Shifted(|vals|, 0), w)
    decreases |vals| - i
  {
    hide Meter;
    if i < |vals| {
      assert Clear(i, |vals|)[1..] == Clear(i + 1, |vals|);
      ClearRuns(vals[i := Numeric(ZERO)], i + 1, w);
    } else {
      assert vals == Shifted(|vals|, 0);
    }
  }

  /** What a shift brings to slot j. */
  function Brought(vals: seq<Val>, k: nat, j: nat): Val
    requires j < |vals|
  {
    if j == 0 then Numeric(ONE) else if j <= k then vals[j - 1] else vals[j]
  }

  predicate Brings(vals: seq<Val>, k: nat, r: seq<Val>) {
    |r| == |vals| && forall j: nat :: j < |vals| ==> r[j] == Brought(vals, k, j)
  }

  lemma BringsOn(vals: seq<Val>, k: nat, r: seq<Val>)
    requires 0 < k < |vals| && Brings(vals[k := vals[k - 1]], k - 1, r)
    ensures Brings(vals, k, r)
  {
  }

  lemma FirstShift(vals: seq<Val>, w: nat)
    requires vals != []
    ensures Exec(Meter(), Shift(0, |vals|), vals, w) == Goes(vals[0 := Numeric(ONE)], w)
  {
    assert Shift(0, |vals|)[1..] == [];
    assert EvalAll(Meter(), [], vals, w) == Yields([], w);
    assert Eval(Meter(), UNKNOWN, vals, w) == Yields(Numeric(ONE), w);
    var r := vals[0 := Numeric(ONE)];
    assert Exec(Meter(), [], r, w) == Goes(r, w);
  }

  lemma NextShift(vals: seq<Val>, k: nat, w: nat)
    requires 0 < k < |vals|
    ensures Exec(Meter(), Shift(k, |vals|), vals, w) == Exec(Meter(), Shift(k - 1, |vals|), vals[k := vals[k - 1]], w)
  {
    hide Meter;
    assert Shift(k, |vals|)[1..] == Shift(k - 1, |vals|);
  }

  lemma {:induction false} ShiftRuns(vals: seq<Val>, k: nat, w: nat) returns (r: seq<Val>)
    requires k < |vals|
    ensures Exec(Meter(), Shift(k, |vals|), vals, w) == Goes(r, w) && Brings(vals, k, r)
    decreases k
  {
    hide Exec, Brings, Meter;
    if k > 0 {
      NextShift(vals, k, w);
      r := ShiftRuns(vals[k := vals[k - 1]], k - 1, w);
      BringsOn(vals, k, r);
    } else {
      FirstShift(vals, w);
      r := vals[0 := Numeric(ONE)];
      assert Brings(vals, 0, r) by {
        FirstBrings(vals);
      }
    }
  }

  lemma FirstBrings(vals: seq<Val>)
    requires vals != []
    ensures Brings(vals, 0, vals[0 := Numeric(ONE)])
  {
  }

  lemma BringsShifted(width: nat, q: nat, r: seq<Val>)
    requires width >= CHAIN && Brings(Shifted(width, q), CHAIN - 1, r)
    ensures r == Shifted(width, q + 1)
  {
  }

  /** What is used in the last block: the last slot of the chain, or zero. */
  predicate Used(u: Expr) {
    u == Slot(CHAIN - 1) || u == NONE
  }

  function Uses(u: Expr, q: nat): nat {
    if u == Slot(CHAIN - 1) && q >= CHAIN then 1 else 0
  }

  lemma ActRuns(width: nat, u: Expr, q: nat, w: nat)
    requires width >= CHAIN && Used(u)
    ensures ListFits(LastBody(width, u), width)
    ensures Exec(Meter(), LastBody(width, u), Shifted(width, q), w)
         == Exec(Meter(), Shift(CHAIN - 1, width), Shifted(width, q), w + Uses(u, q))
  {
    hide Shift;
    var vals := Shifted(width, q);
    assert LastBody(width, u)[1..] == Shift(CHAIN - 1, width);
    assert [u][1..] == [];
    assert EvalAll(Meter(), [], vals, w) == Yields([], w);
    var v := Numeric(if Uses(u, q) == 1 then ONE else ZERO);
    assert Eval(Meter(), u, vals, w) == Yields(v, w);
    assert [v] + [] == [v];
    assert EvalAll(Meter(), [u], vals, w) == Yields([v], w);
    assert Exec1(Meter(), Act(1, [u]), vals, w) == Goes(vals, w + Uses(u, q));
  }

  lemma LastRuns(width: nat, u: Expr, q: nat, w: nat)
    requires width >= CHAIN && Used(u)
    ensures ListFits(LastBody(width, u), width)
    ensures Exec(Meter(), LastBody(width, u), Shifted(width, q), w) == Goes(Shifted(width, q + 1), w + Uses(u, q))
  {
    hide Exec, Shift, LastBody, Meter;
    ActRuns(width, u, q, w);
    var r := ShiftRuns(Shifted(width, q), CHAIN - 1, w + Uses(u, q));
    BringsShifted(width, q, r);
  }

  lemma StepRing(width: nat, u: Expr, b: nat, q: nat, w: nat)
    requires width >= CHAIN && Used(u) && 0 < b < BLOCKS
    ensures ProgramFits(Ring(width, u), width)
    ensures StepBlock(Meter(), Ring(width, u), Here(b, Shifted(width, q), w))
         == if b == BLOCKS - 1 then Here(1, Shifted(width, q + 1), w + Uses(u, q)) else Here(b + 1, Shifted(width, q), w)
  {
    hide Meter, LastBody, Clear, Shifted, ProgramFits;
    RingFits(width, u);
    LastRuns(width, u, q, w);
    assert Ring(width, u)[b] == RingBlock(width, u, b);
  }

  /** Round after round, the chain fills up; with 64 rounds it is full, and the next time the last slot is used
      it is a one. */
  lemma {:induction false} RingRuns(width: nat, u: Expr, b: nat, q: nat, w: nat, n: nat)
    requires width >= CHAIN && Used(u) && 0 < b < BLOCKS && q <= CHAIN && n == (BLOCKS - 1) * (CHAIN - q) + BLOCKS - b
    ensures ProgramFits(Ring(width, u), width)
    ensures RunBlocks(Meter(), Ring(width, u), Here(b, Shifted(width, q), w), n) == Here(1, Shifted(width, CHAIN + 1), w + Uses(u, CHAIN))
    decreases n
  {
    hide Meter, Shifted, Ring, StepBlock, ProgramFits;
    StepRing(width, u, b, q, w);
    if b < BLOCKS - 1 {
      RingRuns(width, u, b + 1, q, w, n - 1);
    } else if q < CHAIN {
      RingRuns(width, u, 1, q + 1, w, n - 1);
    }
  }

  /** From the start, where all slots are undefined. */
  lemma RingCounts(width: nat, u: Expr, vals: seq<Val>)
    requires width >= CHAIN && Used(u) && |vals| == width
    ensures ProgramFits(Ring(width, u), width)
    ensures RunBlocks(Meter(), Ring(width, u), Here(0, vals, 0), 1 + (BLOCKS - 1) * (CHAIN + 1))
         == Here(1, Shifted(width, CHAIN + 1), Uses(u, CHAIN))
  {
    hide Meter, Shifted, Clear, LastBody, ProgramFits;
    RingFits(width, u);
    ClearRuns(vals, 0, 0);
    assert Ring(width, u)[0] == RingBlock(width, u, 0);
    assert StepBlock(Meter(), Ring(width, u), Here(0, vals, 0)) == Here(1, Shifted(width, 0), 0);
    RingRuns(width, u, 1, 0, 0, (BLOCKS - 1) * (CHAIN + 1));
  }

  // ----- Which widths are safe -----

  /** A run that starts where a run can start: at a root, and at the first block with the variables of the
      function undefined. */
  ghost predicate Starts<W>(p: seq<Block>, nregs: nat, width: nat, s: Where<W>) {
    && s.Here? && s.b < |p| && IsRoot(p, s.b) && |s.vals| == width
    && (s.b == 0 ==> forall i :: nregs <= i < width ==> s.vals[i] == Undef)
  }

  ghost predicate RunsAlike<W(!new)>(h: Ops<W>, p: seq<Block>, q: seq<Block>, nregs: nat, width: nat) {
    && ProgramFits(p, width) && ProgramFits(q, width)
    && forall s: Where<W>, n: nat :: Starts(p, nregs, width, s) ==> RunBlocks(h, q, s, n) == RunBlocks(h, p, s, n)
  }

  /** Every function of this width that cannot lose effects otherwise runs as before once it is rewritten. */
  ghost predicate RewrittenRight<W(!new)>(width: nat) {
    forall h: Ops<W>, p: seq<Block>, nregs: nat, q: seq<Block> ::
      ProgramFits(p, width) && StrictProgram(p) && Becomes(h, p, nregs, width, q) ==> RunsAlike(h, p, q, nregs, width)
  }

  /** The failing function: the propagation is cut short, and the rewritten function runs differently. */
  lemma CutShortAndWrong(width: nat)
    requires CHAIN <= width <= MAX_SLOTS
    ensures var p, q := Ring(width, Slot(CHAIN - 1)), Ring(width, NONE);
            && ProgramFits(p, width) && StrictProgram(p) && AtLimit(Meter(), p, 0, width).work != []
            && Becomes(Meter(), p, 0, width, q) && !RunsAlike(Meter(), p, q, 0, width)
  {
    hide Meter, Ring, Shifted, Turns, StartOf, Becomes, StrictProgram, ProgramFits, RunBlocks;
    var u := Slot(CHAIN - 1);
    RingFits(width, u);
    RingCut(Meter(), width, 0);
    RingBecomes(Meter(), width, 0);
    var vals: seq<Val> := seq(width, _ => Undef);
    RingRoots(width, u);
    RingCounts(width, u, vals);
    RingCounts(width, NONE, vals);
    var s: Where<nat> := Here(0, vals, 0);
    assert Starts(Ring(width, u), 0, width, s);
    RunsApart(Meter(), Ring(width, u), Ring(width, NONE), 0, width, s, 1 + (BLOCKS - 1) * (CHAIN + 1));
  }

  lemma RunsApart<W(!new)>(h: Ops<W>, p: seq<Block>, q: seq<Block>, nregs: nat, width: nat, s: Where<W>, n: nat)
    requires ProgramFits(p, width) && ProgramFits(q, width) && Starts(p, nregs, width, s)
    requires RunBlocks(h, q, s, n) != RunBlocks(h, p, s, n)
    ensures !RunsAlike(h, p, q, nregs, width)
  {
    hide RunBlocks, IsRoot;
  }

  lemma NarrowIsRight<W(!new)>(width: nat)
    requires width <= 63 || width > MAX_SLOTS
    ensures RewrittenRight<W>(width)
  {
    hide IsRoot, RunBlocks, StrictProgram, Becomes;
    forall h: Ops<W>, p: seq<Block>, nregs: nat, q: seq<Block> |
      ProgramFits(p, width) && StrictProgram(p) && Becomes(h, p, nregs, width, q)
      ensures RunsAlike(h, p, q, nregs, width)
    {
      BecomesFits(h, p, nregs, width, q);
      forall s: Where<W>, n: nat | Starts(p, nregs, width, s) ensures RunBlocks(h, q, s, n) == RunBlocks(h, p, s, n) {
        RewritingPreserves(h, p, nregs, width, q, s.b, s.vals, s.w, n);
      }
    }
  }

  lemma BecomesFits<W>(h: Ops<W>, p: seq<Block>, nregs: nat, width: nat, q: seq<Block>)
    requires ProgramFits(p, width) && Becomes(h, p, nregs, width, q)
    ensures ProgramFits(q, width)
  {
  }

  /** All functions of a width are rewritten soundly exactly if it has at most 63 slots, or too many to be
      rewritten at all. */
  lemma WidthExactly(width: nat)
    ensures RewrittenRight<nat>(width) <==> width <= 63 || width > MAX_SLOTS
  {
    hide RunsAlike, Becomes, StrictProgram, ProgramFits;
    if width <= 63 || width > MAX_SLOTS {
      NarrowIsRight<nat>(width);
    } else {
      CutShortAndWrong(width);
    }
  }
}
