/** The propagation over a program without cycles: one pass in an order in which every block comes
    before its successors, which is that of a depth-first search, read backwards. */
module Ordered {
  import opened Basics
  import opened Values
  import opened DepthFirst
  import opened Lattice
  import opened Programs
  import opened Solutions
  import opened Worklist

  // ----- One pass -----

  datatype Facts = Facts(envs: seq<Env>, visited: seq<bool>)

  /** Passes what block b leaves behind on to t, which is visited from then on. */
  function Pass(p: seq<Block>, f: Facts, t: nat, out: Env): (r: Facts)
    requires |f.envs| == |f.visited| == |p| && (t < |p| ==> |f.envs[t]| == |out|)
    ensures |r.envs| == |r.visited| == |p|
  {
    if t < |p| && p[t].live then Facts(f.envs[t := MeetAll(f.envs[t], out)], f.visited[t := true]) else f
  }

  function PassAll(p: seq<Block>, f: Facts, ts: seq<nat>, out: Env): (r: Facts)
    requires |f.envs| == |f.visited| == |p| && forall b :: 0 <= b < |p| ==> |f.envs[b]| == |out|
    ensures |r.envs| == |r.visited| == |p| && forall b :: 0 <= b < |p| ==> |r.envs[b]| == |out|
    decreases |ts|
  {
    if ts == [] then f else PassAll(p, Pass(p, f, ts[0], out), ts[1..], out)
  }

  /** Blocks from the k-th of the order on have told their successors. */
  ghost predicate ToldFrom<W>(h: Ops<W>, p: seq<Block>, f: Facts, width: nat, order: seq<nat>, k: nat)
    requires Shaped(p, f.envs, f.visited, width) && k <= |order| && forall j :: 0 <= j < |order| ==> order[j] < |p|
  {
    forall j :: k <= j < |order| && f.visited[order[j]] ==> Told(h, p, f.envs, f.visited, width, order[j])
  }

  ghost predicate Steady<W>(h: Ops<W>, p: seq<Block>, f: Facts, width: nat, nregs: nat, order: seq<nat>, k: nat) {
    && Postorder(p, order) && k <= |order| && Shaped(p, f.envs, f.visited, width)
    && ToldFrom(h, p, f, width, order, k)
    && (forall b: nat :: b < |p| && f.visited[b] ==> b in order)
    && forall b: nat :: b < |p| && IsRoot(p, b) ==> f.visited[b] && BelowAll(f.envs[b], Entry(b, nregs, width))
  }

  lemma PassSteady<W>(h: Ops<W>, p: seq<Block>, f: Facts, width: nat, nregs: nat, order: seq<nat>, k: nat, t: nat, out: Env)
    requires Steady(h, p, f, width, nregs, order, k) && |out| == width
    requires t < |p| && p[t].live ==> t in order[..k]
    ensures var r := Pass(p, f, t, out);
            && Steady(h, p, r, width, nregs, order, k)
            && (forall b: nat :: b < |p| ==> BelowAll(r.envs[b], f.envs[b]) && (f.visited[b] ==> r.visited[b]))
            && (forall j :: k <= j < |order| ==> r.envs[order[j]] == f.envs[order[j]] && r.visited[order[j]] == f.visited[order[j]])
            && (t < |p| && p[t].live ==> r.visited[t] && BelowAll(r.envs[t], out))
  {
    hide OutOf, Successors, IsRoot, Preceded;
    var r := Pass(p, f, t, out);
    if t < |p| && p[t].live {
      var i :| 0 <= i < k && order[i] == t;
      var met := MeetAll(f.envs[t], out);
      assert BelowAll(met, f.envs[t]) && BelowAll(met, out);
      forall j | k <= j < |order| && r.visited[order[j]] ensures Told(h, p, r.envs, r.visited, width, order[j]) {
        TellsStill(h, p, f, r, width, order[j]);
      }
      forall b: nat | b < |p| && IsRoot(p, b) ensures r.visited[b] && BelowAll(r.envs[b], Entry(b, nregs, width)) {
        BelowAllOn(r.envs[b], f.envs[b], Entry(b, nregs, width));
      }
    }
  }

  /** What a block has told stays told while environments fall and its own stays. */
  lemma TellsStill<W>(h: Ops<W>, p: seq<Block>, f: Facts, r: Facts, width: nat, b: nat)
    requires Shaped(p, f.envs, f.visited, width) && Shaped(p, r.envs, r.visited, width) && b < |p|
    requires Told(h, p, f.envs, f.visited, width, b) && r.envs[b] == f.envs[b]
    requires forall t: nat :: t < |p| ==> BelowAll(r.envs[t], f.envs[t]) && (f.visited[t] ==> r.visited[t])
    ensures Told(h, p, r.envs, r.visited, width, b)
  {
    hide OutOf, Successors;
    assert p[b].Fits(width);
    forall t | t in Successors(h, p[b], r.envs[b]) && t < |p| ensures Heard(h, p, r.envs, r.visited, width, b, t) {
      assert Heard(h, p, f.envs, f.visited, width, b, t);
      if p[t].live {
        BelowAllOn(r.envs[t], f.envs[t], OutOf(h, p[b], f.envs[b]));
      }
    }
  }

  lemma {:induction false} PassAllSteady<W>(h: Ops<W>, p: seq<Block>, f: Facts, width: nat, nregs: nat, order: seq<nat>, k: nat, ts: seq<nat>, out: Env)
    requires Steady(h, p, f, width, nregs, order, k) && |out| == width
    requires forall t :: t in ts && t < |p| && p[t].live ==> t in order[..k]
    ensures var r := PassAll(p, f, ts, out);
            && Steady(h, p, r, width, nregs, order, k)
            && (forall b: nat :: b < |p| ==> BelowAll(r.envs[b], f.envs[b]) && (f.visited[b] ==> r.visited[b]))
            && (forall j :: k <= j < |order| ==> r.envs[order[j]] == f.envs[order[j]] && r.visited[order[j]] == f.visited[order[j]])
            && (forall t :: t in ts && t < |p| && p[t].live ==> r.visited[t] && BelowAll(r.envs[t], out))
    decreases |ts|
  {
    hide IsRoot, Preceded, ToldFrom, Pass;
    if ts != [] {
      var m, r := Pass(p, f, ts[0], out), PassAll(p, f, ts, out);
      PassSteady(h, p, f, width, nregs, order, k, ts[0], out);
      PassAllSteady(h, p, m, width, nregs, order, k, ts[1..], out);
      forall b: nat | b < |p| ensures BelowAll(r.envs[b], f.envs[b]) {
        BelowAllOn(r.envs[b], m.envs[b], f.envs[b]);
      }
      if ts[0] < |p| && p[ts[0]].live {
        BelowAllOn(r.envs[ts[0]], m.envs[ts[0]], out);
      }
    }
  }

  /** The k-th block of the order has its turn. */
  lemma TurnSteady<W>(h: Ops<W>, p: seq<Block>, f: Facts, width: nat, nregs: nat, order: seq<nat>, k: nat)
    requires k < |order| && Steady(h, p, f, width, nregs, order, k + 1) && f.visited[order[k]]
    ensures order[k] < |p| && p[order[k]].Fits(width)
    ensures var b := order[k];
            var out := OutOf(h, p[b], f.envs[b]);
            Steady(h, p, PassAll(p, f, FeasibleSeq(h, p[b].term, out), out), width, nregs, order, k)
  {
    hide OutOf, IsRoot, PassAll;
    var b := order[k];
    assert p[b].Fits(width) && Preceded(p, order, k);
    var out := OutOf(h, p[b], f.envs[b]);
    var ts := FeasibleSeq(h, p[b].term, out);
    FeasibleSucc(h, p, b, out);
    forall t | t in ts && t < |p| && p[t].live ensures t in order[..k + 1] {
      assert t in order[..k];
    }
    PassAllSteady(h, p, f, width, nregs, order, k + 1, ts, out);
    var r := PassAll(p, f, ts, out);
    OnlyEarlier(p, f, ts, out, order, k);
    forall t | t in Successors(h, p[b], r.envs[b]) && t < |p| ensures Heard(h, p, r.envs, r.visited, width, b, t) {
      assert t in ts;
    }
  }

  lemma FeasibleSucc<W>(h: Ops<W>, p: seq<Block>, b: nat, out: Env)
    requires b < |p| && p[b].term.Fits(|out|)
    ensures forall t :: t in Feasible(h, p[b].term, out) && t < |p| && p[t].live ==>
              Succ(p, b, 0) == Some(t) || Succ(p, b, 1) == Some(t)
  {
  }

  /** Only blocks that stand before the k-th change. */
  lemma {:induction false} OnlyEarlier(p: seq<Block>, f: Facts, ts: seq<nat>, out: Env, order: seq<nat>, k: nat)
    requires |f.envs| == |f.visited| == |p| && (forall b :: 0 <= b < |p| ==> |f.envs[b]| == |out|)
    requires Distinct(order) && k < |order| && (forall j :: 0 <= j < |order| ==> order[j] < |p|)
    requires forall t :: t in ts && t < |p| && p[t].live ==> t in order[..k]
    ensures PassAll(p, f, ts, out).envs[order[k]] == f.envs[order[k]]
    decreases |ts|
  {
    if ts != [] {
      assert ts[0] < |p| && p[ts[0]].live ==> ts[0] != order[k];
      OnlyEarlier(p, Pass(p, f, ts[0], out), ts[1..], out, order, k);
    }
  }

  /** The pass. It always comes out as a solution that holds at the roots. */
  method PropagateOnce<W>(h: Ops<W>, p: seq<Block>, nregs: nat, width: nat, roots: seq<bool>, order: seq<nat>)
    returns (envs: seq<Env>, visited: seq<bool>)
    requires ProgramFits(p, width) && Postorder(p, order)
    requires |roots| == |p| && forall b :: 0 <= b < |p| ==> (roots[b] <==> IsRoot(p, b))
    requires forall b: nat :: b < |p| && roots[b] ==> b in order
    ensures Solution(h, p, envs, visited, width)
    ensures forall b :: 0 <= b < |p| && IsRoot(p, b) ==> visited[b] && BelowAll(envs[b], Entry(b, nregs, width))
  {
    hide IsRoot, OutOf, PassAll, Preceded;
    var f := Facts(Start(p, roots, nregs, width).envs, roots);
    for k := |order| downto 0
      invariant Steady(h, p, f, width, nregs, order, k)
    {
      var b := order[k];
      if f.visited[b] {
        TurnSteady(h, p, f, width, nregs, order, k);
        var out := OutOf(h, p[b], f.envs[b]);
        f := PassAll(p, f, FeasibleSeq(h, p[b].term, out), out);
      }
    }
    envs, visited := f.envs, f.visited;
    forall b | 0 <= b < |p| && visited[b] && p[b].live ensures Told(h, p, envs, visited, width, b) {
      var j :| 0 <= j < |order| && order[j] == b;
    }
  }

  /** A solution that holds at the roots. */
  ghost predicate Holds<W>(h: Ops<W>, p: seq<Block>, nregs: nat, width: nat, envs: seq<Env>, visited: seq<bool>) {
    && Shaped(p, envs, visited, width) && Solution(h, p, envs, visited, width)
    && forall b :: 0 <= b < |p| && IsRoot(p, b) ==> visited[b] && BelowAll(envs[b], Entry(b, nregs, width))
  }

  /** Constant propagation of a whole function: the single pass if the roots reach no cycle, and the worklist
      otherwise, which alone can be cut short. */
  method Analyze<W>(h: Ops<W>, p: seq<Block>, nregs: nat, width: nat) returns (envs: seq<Env>, visited: seq<bool>, done: bool)
    requires ProgramFits(p, width)
    ensures Shaped(p, envs, visited, width)
    ensures done ==> Holds(h, p, nregs, width, envs, visited)
    ensures done <==> !Cyclic(p, RootsOf(p)) || AtLimit(h, p, nregs, width).work == []
    ensures Cyclic(p, RootsOf(p)) ==> Leaves(h, p, nregs, width, envs, visited)
    ensures width <= 63 ==> done
  {
    hide IsRoot, Solution, Postorder, Cyclic, DepthFirst.Reached, Turns;
    var roots := FindRoots(p);
    assert roots == RootsOf(p);
    var order, cyclic := LeaveOrder(p, roots);
    if cyclic {
      envs, visited, done := Propagate(h, p, nregs, width);
    } else {
      envs, visited := PropagateOnce(h, p, nregs, width, roots, order);
      done := true;
      SolutionShaped(h, p, envs, visited, width);
    }
  }

  /** What the worklist is left with after the last round allowed, whether or not it is a solution. */
  ghost predicate Leaves<W>(h: Ops<W>, p: seq<Block>, nregs: nat, width: nat, envs: seq<Env>, visited: seq<bool>)
    requires ProgramFits(p, width)
  {
    var s := LeftWith(AtLimit(h, p, nregs, width));
    envs == s.envs && visited == s.visited
  }

  lemma SolutionShaped<W>(h: Ops<W>, p: seq<Block>, envs: seq<Env>, visited: seq<bool>, width: nat)
    requires Solution(h, p, envs, visited, width)
    ensures Shaped(p, envs, visited, width)
  {
  }

  /** All of it together: a run that starts at a root, with the variables of the function undefined if
      that is the first block, is the same after the rewriting, as long as what is overwritten has no
      effects, and so in every program without `void`, bitwise and, and conditionals; and where it is,
      what is known holds. */
  lemma AnalysisPreserves<W>(h: Ops<W>, p: seq<Block>, envs: seq<Env>, visited: seq<bool>, nregs: nat, width: nat,
                             b: nat, vals: seq<Val>, w: W, n: nat)
    requires Solution(h, p, envs, visited, width) && |vals| == width && b < |p| && IsRoot(p, b)
    requires forall r :: 0 <= r < |p| && IsRoot(p, r) ==> visited[r] && BelowAll(envs[r], Entry(r, nregs, width))
    requires b == 0 ==> forall i :: nregs <= i < width ==> vals[i] == Undef
    ensures var t := RunBlocks(h, p, Here(b, vals, w), n);
            && Foreseen(p, envs, visited, t)
            && (StrictProgram(p) || ProgramKeeps(h, p, envs, visited, width) ==>
                  RunBlocks(h, WrittenProgram(h, p, envs, visited, width), Here(b, vals, w), n) == t)
  {
    hide IsRoot, Solution, RunBlocks, ProgramKeeps, StrictProgram, WrittenProgram;
    SolutionShaped(h, p, envs, visited, width);
    if StrictProgram(p) {
      StrictProgramKeeps(h, p, envs, visited, width);
    }
    assert DescribesAll(Entry(b, nregs, width), vals);
    BelowAllDescribes(envs[b], Entry(b, nregs, width), vals);
    RunForeseen(h, p, envs, visited, width, Here(b, vals, w), n);
    if ProgramKeeps(h, p, envs, visited, width) {
      RewritePreserves(h, p, envs, visited, width, Here(b, vals, w), n);
    }
  }

  // ----- The function as it is rewritten -----

  const MAX_SLOTS := 4096

  /** What becomes of a function. Too many slots, and it is left alone; otherwise it is rewritten by what the
      analysis is left with, be it a solution or not. */
  ghost predicate Becomes<W>(h: Ops<W>, p: seq<Block>, nregs: nat, width: nat, q: seq<Block>)
    requires ProgramFits(p, width)
  {
    if width > MAX_SLOTS then q == p
    else exists envs, visited :: WrittenAs(h, p, nregs, width, envs, visited, q)
  }

  ghost predicate WrittenAs<W>(h: Ops<W>, p: seq<Block>, nregs: nat, width: nat, envs: seq<Env>, visited: seq<bool>, q: seq<Block>)
    requires ProgramFits(p, width)
  {
    && Shaped(p, envs, visited, width) && q == WrittenProgram(h, p, envs, visited, width)
    && if Cyclic(p, RootsOf(p)) then Leaves(h, p, nregs, width, envs, visited) else Holds(h, p, nregs, width, envs, visited)
  }

  method RewriteFunction<W>(h: Ops<W>, p: seq<Block>, nregs: nat, width: nat) returns (q: seq<Block>)
    requires ProgramFits(p, width)
    ensures Becomes(h, p, nregs, width, q)
  {
    hide Holds, Leaves, Cyclic, Turns, WrittenBlock, IsRoot;
    if width > MAX_SLOTS {
      return p;
    }
    var envs, visited, done := Analyze(h, p, nregs, width);
    q := p;
    for b := 0 to |p|
      invariant |q| == |p| && q[b..] == p[b..]
      invariant q[..b] == WrittenProgram(h, p, envs, visited, width)[..b]
    {
      assert p[b].Fits(width) && q[b] == q[b..][0] == p[b..][0] == p[b];
      ghost var was := q;
      var block := WrittenBlock(h, p[b], envs[b], visited[b]);
      q := q[b := block];
      assert q[b + 1..] == was[b..][1..];
      assert q[..b + 1] == was[..b] + [block];
    }
    assert WrittenAs(h, p, nregs, width, envs, visited, q);
  }

  /** Where the analysis is not cut short, a function that keeps its effects runs as before. */
  lemma RewritingPreserves<W>(h: Ops<W>, p: seq<Block>, nregs: nat, width: nat, q: seq<Block>, b: nat, vals: seq<Val>, w: W, n: nat)
    requires ProgramFits(p, width) && Becomes(h, p, nregs, width, q) && StrictProgram(p)
    requires width <= 63 || width > MAX_SLOTS || !Cyclic(p, RootsOf(p)) || AtLimit(h, p, nregs, width).work == []
    requires |vals| == width && b < |p| && IsRoot(p, b) && (b == 0 ==> forall i :: nregs <= i < width ==> vals[i] == Undef)
    ensures ProgramFits(q, width) && RunBlocks(h, q, Here(b, vals, w), n) == RunBlocks(h, p, Here(b, vals, w), n)
  {
    hide Cyclic, Turns, StrictProgram, RunBlocks, IsRoot, WrittenProgram, Holds;
    if width <= MAX_SLOTS {
      var envs, visited :| WrittenAs(h, p, nregs, width, envs, visited, q);
      if Cyclic(p, RootsOf(p)) {
        AtLimitHolds(h, p, nregs, width);
      }
      HoldsAtRoots(h, p, nregs, width, envs, visited);
      AnalysisPreserves(h, p, envs, visited, nregs, width, b, vals, w, n);
    }
  }

  lemma HoldsAtRoots<W>(h: Ops<W>, p: seq<Block>, nregs: nat, width: nat, envs: seq<Env>, visited: seq<bool>)
    requires Holds(h, p, nregs, width, envs, visited)
    ensures Shaped(p, envs, visited, width) && Solution(h, p, envs, visited, width)
    ensures forall r :: 0 <= r < |p| && IsRoot(p, r) ==> visited[r] && BelowAll(envs[r], Entry(r, nregs, width))
  {
  }
}
