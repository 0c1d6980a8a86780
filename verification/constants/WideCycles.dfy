/** Where the rounds run out. With 63 slots the worklist always settles; with 64 there is a program that it
    leaves too early, and that is rewritten all the same: a ring of blocks through which one slot after
    another loses its constant, once around for each. */
module WideCycles {
  import opened Numbers
  import opened Values
  import opened Lattice
  import opened Programs
  import opened Propagation
  import opened Rewriting
  import opened Solutions
  import opened DepthFirst
  import opened Worklist
  import opened Ordered

  // ----- The program -----

  /** Blocks, the first of which leads into the ring of the others, and slots in the chain. */
  const BLOCKS := 130
  const CHAIN := 64

  const NONE := Literal(Numeric(ZERO))
  const UNKNOWN := Expr.Other(0, [])

  /** All slots from the i-th on become zero. */
  function Clear(i: nat, width: nat): (ss: seq<Stmt>)
    requires i <= width
    ensures ListFits(ss, width) && StrictList(ss)
    decreases width - i
  {
    if i == width then [] else [Assign(i, NONE)] + Clear(i + 1, width)
  }

  /** Each slot up to the k-th takes over from the one below it, from the top down, and the first becomes
      anything. */
  function Shift(k: nat, width: nat): (ss: seq<Stmt>)
    requires k < width
    ensures ListFits(ss, width) && StrictList(ss)
  {
    if k == 0 then [Assign(0, UNKNOWN)] else [Assign(k, Slot(k - 1))] + Shift(k - 1, width)
  }

  /** What the last block does: to use u, and to shift. */
  function LastBody(width: nat, u: Expr): (body: seq<Stmt>)
    requires width >= CHAIN
  {
    [Act(1, [u])] + Shift(CHAIN - 1, width)
  }

  function RingBlock(width: nat, u: Expr, b: nat): Block
    requires width >= CHAIN
  {
    Block(true, if b == 0 then Clear(0, width) else if b == BLOCKS - 1 then LastBody(width, u) else [],
          Goto(if b == BLOCKS - 1 then 1 else b + 1))
  }

  /** The last block uses u before it shifts. */
  function Ring(width: nat, u: Expr): (p: seq<Block>)
    requires width >= CHAIN
    ensures |p| == BLOCKS && forall b :: 0 <= b < BLOCKS ==> p[b] == RingBlock(width, u, b)
  {
    seq(BLOCKS, b requires 0 <= b < BLOCKS => RingBlock(width, u, b))
  }

  lemma LastFits(width: nat, u: Expr)
    requires width >= CHAIN && u.Fits(width) && Strict(u)
    ensures ListFits(LastBody(width, u), width) && StrictList(LastBody(width, u))
  {
    hide Shift, Strict, StrictStmt, Stmt.Fits;
    var act, shift := Act(1, [u]), Shift(CHAIN - 1, width);
    assert act.Fits(width) && StrictStmt(act) by {
      ActFits(width, u);
    }
    forall k | 0 <= k < |LastBody(width, u)|
      ensures LastBody(width, u)[k].Fits(width) && StrictStmt(LastBody(width, u)[k])
    {
      assert LastBody(width, u)[k] == if k == 0 then act else shift[k - 1];
    }
  }

  lemma ActFits(width: nat, u: Expr)
    requires u.Fits(width) && Strict(u)
    ensures Act(1, [u]).Fits(width) && StrictStmt(Act(1, [u]))
  {
    hide Strict, Expr.Fits;
  }

  lemma RingBlockFits(width: nat, u: Expr, b: nat)
    requires width >= CHAIN && u.Fits(width) && Strict(u)
    ensures RingBlock(width, u, b).Fits(width) && StrictBlock(RingBlock(width, u, b))
  {
    hide LastBody, Clear, Strict, StrictStmt, Stmt.Fits;
    LastFits(width, u);
  }

  lemma RingFits(width: nat, u: Expr)
    requires width >= CHAIN && u.Fits(width) && Strict(u)
    ensures ProgramFits(Ring(width, u), width) && StrictProgram(Ring(width, u))
  {
    hide RingBlock, Block.Fits, StrictBlock;
    forall b: nat | b < BLOCKS ensures Ring(width, u)[b].Fits(width) && StrictBlock(Ring(width, u)[b]) {
      RingBlockFits(width, u, b);
    }
  }

  // ----- What is known -----

  /** The first k slots of the chain have lost their constants. */
  function Fallen(width: nat, k: nat): (env: Env)
    ensures |env| == width && forall i :: 0 <= i < width ==> env[i] == if i < k && i < CHAIN then Bot else Lit(Numeric(ZERO))
  {
    seq(width, i => if i < k && i < CHAIN then Bot else Lit(Numeric(ZERO)))
  }

  lemma {:induction false} ClearAfter<W>(h: Ops<W>, env: Env, i: nat)
    requires i <= |env| && forall j :: 0 <= j < i ==> env[j] == Lit(Numeric(ZERO))
    ensures After(h, Clear(i, |env|), env) == Fallen(|env|, 0) && WrittenList(h, Clear(i, |env|), env) == Clear(i, |env|)
    decreases |env| - i
  {
    if i < |env| {
      var next := env[i := Lit(Numeric(ZERO))];
      assert Clear(i, |env|)[1..] == Clear(i + 1, |env|);
      ClearAfter(h, next, i + 1);
    }
  }

  /** What a shift brings to slot j. */
  function Fed(env: Env, k: nat, j: nat): AV
    requires j < |env|
  {
    if j == 0 then Bot else if j <= k then env[j - 1] else env[j]
  }

  predicate ShiftsTo(env: Env, k: nat, r: Env) {
    |r| == |env| && forall j: nat :: j < |env| ==> r[j] == Fed(env, k, j)
  }

  lemma ShiftsOn(env: Env, k: nat, r: Env)
    requires 0 < k < |env| && ShiftsTo(env[k := env[k - 1]], k - 1, r)
    ensures ShiftsTo(env, k, r)
  {
  }

  lemma ShiftStep<W>(h: Ops<W>, env: Env, k: nat)
    requires 0 < k < |env|
    ensures var next := env[k := env[k - 1]];
            && After(h, Shift(k, |env|), env) == After(h, Shift(k - 1, |env|), next)
            && WrittenList(h, Shift(k, |env|), env) == [Assign(k, Written(h, Slot(k - 1), env))] + WrittenList(h, Shift(k - 1, |env|), next)
  {
    assert Shift(k, |env|)[1..] == Shift(k - 1, |env|);
  }

  lemma {:induction false} ShiftAfter<W>(h: Ops<W>, env: Env, k: nat)
    requires k < |env|
    ensures ShiftsTo(env, k, After(h, Shift(k, |env|), env))
    ensures (forall j :: 0 <= j < k ==> env[j].Bot?) ==> WrittenList(h, Shift(k, |env|), env) == Shift(k, |env|)
    decreases k
  {
    if k > 0 {
      hide After, WrittenList, ShiftsTo;
      var next := env[k := env[k - 1]];
      ShiftAfter(h, next, k - 1);
      ShiftStep(h, env, k);
      ShiftsOn(env, k, After(h, Shift(k - 1, |env|), next));
    } else {
      assert Shift(0, |env|)[1..] == [];
      assert After(h, [], env[0 := Bot]) == env[0 := Bot];
    }
  }

  lemma ShiftFalls(width: nat, k: nat, r: Env)
    requires width >= CHAIN && k < CHAIN && ShiftsTo(Fallen(width, k), CHAIN - 1, r)
    ensures r == Fallen(width, k + 1)
  {
  }

  lemma ActAfter<W>(h: Ops<W>, width: nat, u: Expr, env: Env)
    requires width >= CHAIN && u.Fits(width) && |env| == width
    ensures ListFits(LastBody(width, u), width)
    ensures After(h, LastBody(width, u), env) == After(h, Shift(CHAIN - 1, width), env)
    ensures WrittenList(h, LastBody(width, u), env) == [Act(1, [Written(h, u, env)])] + WrittenList(h, Shift(CHAIN - 1, width), env)
  {
    hide Shift, Written;
    assert LastBody(width, u)[1..] == Shift(CHAIN - 1, width);
    assert [u][1..] == [];
    assert WrittenAll(h, [u], env) == [Written(h, u, env)];
  }

  /** Once around the ring one more constant is lost. */
  lemma LastAfter<W>(h: Ops<W>, width: nat, k: nat)
    requires width >= CHAIN && k < CHAIN
    ensures var body := LastBody(width, Slot(CHAIN - 1));
            && ListFits(body, width) && After(h, body, Fallen(width, k)) == Fallen(width, k + 1)
            && (k == CHAIN - 1 ==> WrittenList(h, body, Fallen(width, k)) == LastBody(width, NONE))
  {
    hide After, WrittenList, Shift, ShiftsTo;
    var env := Fallen(width, k);
    ActAfter(h, width, Slot(CHAIN - 1), env);
    ShiftAfter(h, env, CHAIN - 1);
    ShiftFalls(width, k, After(h, Shift(CHAIN - 1, width), env));
  }

  // ----- The rounds -----

  function Expected(width: nat, nregs: nat, q: nat, j: nat, b: nat): (env: Env)
    ensures |env| == width
  {
    if b == 0 then Entry(0, nregs, width)
    else if b <= 1 + j then Fallen(width, q)
    else if q == 0 then seq(width, _ => Top) else Fallen(width, q - 1)
  }

  /** After 1 + 129q + j rounds: block 1 + j waits, and it and those before it are once further around. */
  ghost function Snapshot(width: nat, nregs: nat, q: nat, j: nat): (s: Worklist.State)
    requires j < BLOCKS - 1
    ensures |s.envs| == |s.visited| == BLOCKS && s.work == [1 + j]
    ensures forall b: nat :: b < BLOCKS ==> |s.envs[b]| == width
  {
    Worklist.State(seq(BLOCKS, b requires 0 <= b < BLOCKS => Expected(width, nregs, q, j, b)), seq(BLOCKS, b => q > 0 || b <= j), [1 + j])
  }

  lemma SnapshotSized(width: nat, nregs: nat, q: nat, j: nat)
    requires j < BLOCKS - 1 && width >= CHAIN
    ensures ProgramFits(Ring(width, Slot(CHAIN - 1)), width)
    ensures Sized(Ring(width, Slot(CHAIN - 1)), Snapshot(width, nregs, q, j), width)
  {
    hide RingBlock, ProgramFits;
    RingFits(width, Slot(CHAIN - 1));
  }

  lemma MeetFallen(width: nat, q: nat)
    ensures MeetAll(Fallen(width, q), Fallen(width, q + 1)) == Fallen(width, q + 1)
    ensures MeetAll(seq(width, _ => Top), Fallen(width, q)) == Fallen(width, q)
    ensures q < CHAIN <= width ==> Fallen(width, q) != Fallen(width, q + 1)
  {
    if q < CHAIN <= width {
      assert Fallen(width, q)[q] != Fallen(width, q + 1)[q];
    }
  }

  lemma TellOne(m: Worklist.State, t: nat, out: Env)
    requires |m.envs| == |m.visited| && forall b :: 0 <= b < |m.envs| ==> |m.envs[b]| == |out|
    ensures TellAll(m, [t], out) == Tell(m, t, out)
  {
    assert [t][1..] == [];
    assert TellAll(Tell(m, t, out), [], out) == Tell(m, t, out);
  }

  /** The turn of a block that leads to one other. */
  lemma TurnTo<W>(h: Ops<W>, p: seq<Block>, width: nat, s: Worklist.State, b: nat, t: nat)
    requires Sized(p, s, width) && s.work == [b] && b < |p| && p[b].Fits(width) && p[b].term == Goto(t)
    ensures |s.envs| == |s.visited| == |p| && (forall c :: 0 <= c < |p| ==> |s.envs[c]| == width)
    ensures Turn(h, p, width, s) == Tell(Popped(s).1, t, OutOf(h, p[b], s.envs[b]))
  {
    hide Tell, TellAll, OutOf;
    TellOne(Popped(s).1, t, OutOf(h, p[b], s.envs[b]));
  }

  /** A block tells the one behind it. */
  lemma TellOn(width: nat, nregs: nat, q: nat, j: nat)
    requires width >= CHAIN && j < BLOCKS - 2 && q <= CHAIN
    ensures var s := Snapshot(width, nregs, q, j); Tell(Popped(s).1, 2 + j, Fallen(width, q)) == Snapshot(width, nregs, q, j + 1)
  {
    hide MeetAll, Fallen, Entry;
    MeetFallen(width, q);
    if q > 0 {
      MeetFallen(width, q - 1);
    }
    var r, t := Tell(Popped(Snapshot(width, nregs, q, j)).1, 2 + j, Fallen(width, q)), Snapshot(width, nregs, q, j + 1);
    assert r.envs == t.envs;
    assert r.visited == t.visited;
    assert r.work == t.work;
  }

  lemma TurnOn<W>(h: Ops<W>, width: nat, nregs: nat, q: nat, j: nat)
    requires width >= CHAIN && j < BLOCKS - 2 && q <= CHAIN
    ensures var p := Ring(width, Slot(CHAIN - 1));
            && Sized(p, Snapshot(width, nregs, q, j), width)
            && Turn(h, p, width, Snapshot(width, nregs, q, j)) == Snapshot(width, nregs, q, j + 1)
  {
    hide LastBody, Clear, Sized, Tell, Turn, Fallen;
    SnapshotSized(width, nregs, q, j);
    var p, s := Ring(width, Slot(CHAIN - 1)), Snapshot(width, nregs, q, j);
    assert p[1 + j] == Block(true, [], Goto(2 + j));
    TurnTo(h, p, width, s, 1 + j, 2 + j);
    assert OutOf(h, p[1 + j], s.envs[1 + j]) == Fallen(width, q);
    TellOn(width, nregs, q, j);
  }

  /** The last block tells the first of the ring. */
  lemma TellAround(width: nat, nregs: nat, q: nat)
    requires width >= CHAIN && q < CHAIN
    ensures var s := Snapshot(width, nregs, q, BLOCKS - 2); Tell(Popped(s).1, 1, Fallen(width, q + 1)) == Snapshot(width, nregs, q + 1, 0)
  {
    hide MeetAll, Fallen, Entry;
    MeetFallen(width, q);
    var r, t := Tell(Popped(Snapshot(width, nregs, q, BLOCKS - 2)).1, 1, Fallen(width, q + 1)), Snapshot(width, nregs, q + 1, 0);
    assert r.envs == t.envs;
    assert r.visited == t.visited;
    assert r.work == t.work;
  }

  lemma TurnAround<W>(h: Ops<W>, width: nat, nregs: nat, q: nat)
    requires width >= CHAIN && q < CHAIN
    ensures var p := Ring(width, Slot(CHAIN - 1));
            && Sized(p, Snapshot(width, nregs, q, BLOCKS - 2), width)
            && Turn(h, p, width, Snapshot(width, nregs, q, BLOCKS - 2)) == Snapshot(width, nregs, q + 1, 0)
  {
    hide LastBody, Clear, Sized, Tell, Turn, Fallen, After;
    SnapshotSized(width, nregs, q, BLOCKS - 2);
    var p, s := Ring(width, Slot(CHAIN - 1)), Snapshot(width, nregs, q, BLOCKS - 2);
    var b := BLOCKS - 1;
    assert p[b] == Block(true, LastBody(width, Slot(CHAIN - 1)), Goto(1)) && s.envs[b] == Fallen(width, q);
    LastAfter(h, width, q);
    TurnTo(h, p, width, s, b, 1);
    TellAround(width, nregs, q);
  }

  lemma RingRoots(width: nat, u: Expr)
    requires width >= CHAIN
    ensures forall b :: 0 <= b < BLOCKS ==> (RootsOf(Ring(width, u))[b] <==> b == 0)
  {
    var p := Ring(width, u);
    forall b | 0 < b < BLOCKS ensures !IsRoot(p, b) {
      assert b in Targets(p[b - 1].term);
    }
  }

  lemma {:induction false} OneRoot(roots: seq<bool>, n: nat)
    requires 0 < n <= |roots| && forall b :: 0 <= b < |roots| ==> (roots[b] <==> b == 0)
    ensures StartWork(roots, n) == [0]
  {
    if n > 1 {
      OneRoot(roots, n - 1);
    } else {
      assert StartWork(roots, 0) == [];
    }
  }

  lemma TellFirst(width: nat, nregs: nat, s: Worklist.State)
    requires width >= CHAIN && |s.envs| == BLOCKS && s.visited == seq(BLOCKS, _ => false) && s.work == [0]
    requires forall b :: 0 <= b < BLOCKS ==> s.envs[b] == if b == 0 then Entry(0, nregs, width) else seq(width, _ => Top)
    ensures Tell(Popped(s).1, 1, Fallen(width, 0)) == Snapshot(width, nregs, 0, 0)
  {
    hide MeetAll, Fallen, Entry;
    MeetFallen(width, 0);
    var r, t := Tell(Popped(s).1, 1, Fallen(width, 0)), Snapshot(width, nregs, 0, 0);
    assert r.envs == t.envs;
    assert r.visited == t.visited;
    assert r.work == t.work;
  }

  lemma FirstTurn<W>(h: Ops<W>, width: nat, nregs: nat)
    requires width >= CHAIN && ProgramFits(Ring(width, Slot(CHAIN - 1)), width)
    ensures var p := Ring(width, Slot(CHAIN - 1)); Turn(h, p, width, StartOf(p, nregs, width)) == Snapshot(width, nregs, 0, 0)
  {
    hide LastBody, Clear, Sized, Tell, Turn, Fallen, After, Snapshot, IsRoot, ProgramFits;
    var p := Ring(width, Slot(CHAIN - 1));
    RingRoots(width, Slot(CHAIN - 1));
    var s := StartOf(p, nregs, width);
    OneRoot(RootsOf(p), BLOCKS);
    assert p[0] == Block(true, Clear(0, width), Goto(1));
    ClearAfter(h, s.envs[0], 0);
    TurnTo(h, p, width, s, 0, 1);
    TellFirst(width, nregs, s);
  }

  lemma {:induction false} TurnsAre<W>(h: Ops<W>, width: nat, nregs: nat, q: nat, j: nat)
    requires width >= CHAIN && ProgramFits(Ring(width, Slot(CHAIN - 1)), width) && j < BLOCKS - 1 && q <= CHAIN
    ensures var p := Ring(width, Slot(CHAIN - 1));
            Turns(h, p, width, StartOf(p, nregs, width), 1 + (BLOCKS - 1) * q + j) == Snapshot(width, nregs, q, j)
    decreases q, j
  {
    hide Turn, Snapshot, StartOf;
    var p := Ring(width, Slot(CHAIN - 1));
    if j > 0 {
      TurnsAre(h, width, nregs, q, j - 1);
      TurnOn(h, width, nregs, q, j - 1);
    } else if q > 0 {
      TurnsAre(h, width, nregs, q - 1, BLOCKS - 2);
      TurnAround(h, width, nregs, q - 1);
    } else {
      FirstTurns(h, p, width, StartOf(p, nregs, width));
      FirstTurn(h, width, nregs);
    }
  }

  /** After the last round allowed 63 slots have lost their constants at the last block, and the 64th has not. */
  lemma RingCut<W>(h: Ops<W>, width: nat, nregs: nat)
    requires width >= CHAIN && ProgramFits(Ring(width, Slot(CHAIN - 1)), width)
    ensures AtLimit(h, Ring(width, Slot(CHAIN - 1)), nregs, width) == Snapshot(width, nregs, CHAIN, BLOCKS - 3)
  {
    hide Turns, Snapshot, StartOf;
    TurnsAre(h, width, nregs, CHAIN, BLOCKS - 3);
    assert 1 + (BLOCKS - 1) * CHAIN + (BLOCKS - 3) == Limit(BLOCKS);
  }

  lemma RingCyclic(width: nat, u: Expr)
    requires width >= CHAIN
    ensures Cyclic(Ring(width, u), RootsOf(Ring(width, u)))
  {
    var p := Ring(width, u);
    RingRoots(width, u);
    var path := seq(BLOCKS + 1, k => if k < BLOCKS then k else 1);
    forall k | 0 <= k < |path| - 1 ensures Leads(p, path[k], path[k + 1]) {
    }
    assert Lasso(p, RootsOf(p), path, 1);
  }

  /** So the use of the 64th slot in the last block is rewritten to zero, and nothing else. */
  lemma RingWritten<W>(h: Ops<W>, width: nat, nregs: nat, envs: seq<Env>, visited: seq<bool>)
    requires width >= CHAIN && Shaped(Ring(width, Slot(CHAIN - 1)), envs, visited, width)
    requires envs == Snapshot(width, nregs, CHAIN, BLOCKS - 3).envs && visited == seq(BLOCKS, _ => true)
    ensures WrittenProgram(h, Ring(width, Slot(CHAIN - 1)), envs, visited, width) == Ring(width, NONE)
  {
    hide Shift, Clear;
    var p := Ring(width, Slot(CHAIN - 1));
    var r := WrittenProgram(h, p, envs, visited, width);
    forall b | 0 <= b < BLOCKS ensures r[b] == RingBlock(width, NONE, b) {
      assert p[b].Fits(width) && r[b] == WrittenBlock(h, p[b], envs[b], visited[b]);
      if b == 0 {
        ClearAfter(h, envs[0], 0);
      } else if b == BLOCKS - 1 {
        LastAfter(h, width, CHAIN - 1);
      }
    }
  }

  lemma RingBecomes<W>(h: Ops<W>, width: nat, nregs: nat)
    requires CHAIN <= width <= MAX_SLOTS && ProgramFits(Ring(width, Slot(CHAIN - 1)), width)
    ensures Becomes(h, Ring(width, Slot(CHAIN - 1)), nregs, width, Ring(width, NONE))
  {
    hide Turns, StartOf, Cyclic, WrittenProgram;
    var p := Ring(width, Slot(CHAIN - 1));
    RingCut(h, width, nregs);
    RingCyclic(width, Slot(CHAIN - 1));
    SnapshotSized(width, nregs, CHAIN, BLOCKS - 3);
    var s := LeftWith(AtLimit(h, p, nregs, width));
    assert s.visited == seq(BLOCKS, _ => true);
    RingWritten(h, width, nregs, s.envs, s.visited);
    assert WrittenAs(h, p, nregs, width, s.envs, s.visited, Ring(width, NONE));
  }
}
