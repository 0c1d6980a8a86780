/** What the propagation over the blocks must come out as, and what follows of it: on every run along
    the edges of the program, what is known at the start of a block holds there, blocks never
    reached are never run, and the program with all known values written in runs as before. */
module Solutions {
  import opened Values
  import opened Lattice
  import opened Programs
  import opened Propagation
  import opened Rewriting

  /** The blocks that can follow, as far as the branch is not decided. */
  function Feasible<W>(h: Ops<W>, term: Term, env: Env): set<nat>
    requires term.Fits(|env|)
  {
    match term
    case Goto(t) => {t}
    case Branch(c, when, t, e) =>
      (match TruthOf(Known(h, c, env))
       case Some(b) => if b == when then {t} else {e}
       case None => {t, e})
    case Dynamic(Some(t)) => {t}
    case _ => {}
  }

  /** One environment a block, all of the same width. */
  predicate Shaped(p: seq<Block>, envs: seq<Env>, visited: seq<bool>, width: nat) {
    && |envs| == |visited| == |p| && ProgramFits(p, width)
    && forall b :: 0 <= b < |envs| ==> |envs[b]| == width
  }

  function OutOf<W>(h: Ops<W>, block: Block, env: Env): (r: Env)
    requires block.Fits(|env|)
    ensures |r| == |env|
  {
    After(h, block.body, env)
  }

  function Successors<W>(h: Ops<W>, block: Block, env: Env): set<nat>
    requires block.Fits(|env|)
  {
    Feasible(h, block.term, OutOf(h, block, env))
  }

  /** The block has told its successors what it leaves behind. */
  ghost predicate Told<W>(h: Ops<W>, p: seq<Block>, envs: seq<Env>, visited: seq<bool>, width: nat, b: nat)
    requires Shaped(p, envs, visited, width) && b < |p|
  {
    assert p[b].Fits(width);
    forall t :: t in Successors(h, p[b], envs[b]) && t < |p| ==> Heard(h, p, envs, visited, width, b, t)
  }

  ghost predicate Heard<W>(h: Ops<W>, p: seq<Block>, envs: seq<Env>, visited: seq<bool>, width: nat, b: nat, t: nat)
    requires Shaped(p, envs, visited, width) && b < |p| && t < |p|
  {
    p[t].live ==> visited[t] && BelowAll(envs[t], OutOf(h, p[b], envs[b]))
  }

  ghost predicate Solution<W>(h: Ops<W>, p: seq<Block>, envs: seq<Env>, visited: seq<bool>, width: nat) {
    && Shaped(p, envs, visited, width)
    && forall b :: 0 <= b < |p| && visited[b] && p[b].live ==> Told(h, p, envs, visited, width, b)
  }

  /** A place in a run of which all is as known. */
  ghost predicate Foreseen<W>(p: seq<Block>, envs: seq<Env>, visited: seq<bool>, s: Where<W>)
    requires |envs| == |visited| == |p|
  {
    s.Here? && s.b < |p| && p[s.b].live ==> visited[s.b] && DescribesAll(envs[s.b], s.vals)
  }

  lemma StepForeseen<W>(h: Ops<W>, p: seq<Block>, envs: seq<Env>, visited: seq<bool>, width: nat, s: Where<W>)
    requires Solution(h, p, envs, visited, width) && (s.Here? ==> |s.vals| == width) && Foreseen(p, envs, visited, s)
    ensures Foreseen(p, envs, visited, StepBlock(h, p, s))
  {
    hide Known, After, Exec, Eval;
    var t := StepBlock(h, p, s);
    if s.Here? && s.b < |p| && p[s.b].live && t.Here? {
      var block, env := p[s.b], envs[s.b];
      assert block.Fits(width) && Told(h, p, envs, visited, width, s.b);
      var f := Exec(h, block.body, s.vals, s.w);
      AfterSound(h, block.body, env, s.vals, s.w);
      FollowsFeasible(h, block.term, OutOf(h, block, env), f.vals, f.w);
      if t.b < |p| {
        assert Heard(h, p, envs, visited, width, s.b, t.b);
        if p[t.b].live {
          FollowKeeps(h, block.term, f.vals, f.w);
          BelowAllDescribes(envs[t.b], OutOf(h, block, env), t.vals);
        }
      }
    }
  }

  lemma FollowsFeasible<W>(h: Ops<W>, term: Term, env: Env, vals: seq<Val>, w: W)
    requires term.Fits(|env|) && DescribesAll(env, vals) && Follow(h, term, vals, w).Here?
    ensures Follow(h, term, vals, w).b in Feasible(h, term, env)
  {
    if term.Branch? {
      KnownSound(h, term.cond, env, vals, w);
    }
  }

  lemma FollowKeeps<W>(h: Ops<W>, term: Term, vals: seq<Val>, w: W)
    requires term.Fits(|vals|) && Follow(h, term, vals, w).Here?
    ensures Follow(h, term, vals, w).vals == vals
  {
  }

  /** On every run from a foreseen place, what is known at a block holds whenever the run is there. */
  lemma {:induction false} RunForeseen<W>(h: Ops<W>, p: seq<Block>, envs: seq<Env>, visited: seq<bool>, width: nat, s: Where<W>, n: nat)
    requires Solution(h, p, envs, visited, width) && (s.Here? ==> |s.vals| == width) && Foreseen(p, envs, visited, s)
    ensures Foreseen(p, envs, visited, RunBlocks(h, p, s, n))
    decreases n
  {
    if n > 0 {
      hide StepBlock, Solution;
      StepForeseen(h, p, envs, visited, width, s);
      RunForeseen(h, p, envs, visited, width, StepBlock(h, p, s), n - 1);
    }
  }

  // ----- The rewritten program -----

  function WrittenTerm<W>(h: Ops<W>, term: Term, env: Env): (r: Term)
    requires term.Fits(|env|)
    ensures r.Fits(|env|)
  {
    if !term.Branch? then term else
    match TruthOf(Known(h, term.cond, env))
    case Some(b) => Goto(if b == term.when then term.thenArm else term.elseArm)
    case None => Branch(Written(h, term.cond, env), term.when, term.thenArm, term.elseArm)
  }

  /** A block that was not reached is marked dead. */
  function WrittenBlock<W>(h: Ops<W>, block: Block, env: Env, visited: bool): (r: Block)
    requires block.Fits(|env|)
    ensures r.Fits(|env|)
  {
    if !block.live then block
    else if !visited then block.(live := false)
    else Block(true, WrittenList(h, block.body, env), WrittenTerm(h, block.term, OutOf(h, block, env)))
  }

  function WrittenProgram<W>(h: Ops<W>, p: seq<Block>, envs: seq<Env>, visited: seq<bool>, width: nat): (r: seq<Block>)
    requires Shaped(p, envs, visited, width)
    ensures |r| == |p| && ProgramFits(r, width)
  {
    seq(|p|, b requires 0 <= b < |p| => assert p[b].Fits(width); WrittenBlock(h, p[b], envs[b], visited[b]))
  }

  ghost predicate BlockKeeps<W>(h: Ops<W>, block: Block, env: Env)
    requires block.Fits(|env|)
  {
    && ListKeeps(h, block.body, env)
    && (block.term.Branch? ==> KeepsEffects(h, block.term.cond, OutOf(h, block, env)))
  }

  /** Whatever is overwritten in a block that is reached is silent. */
  ghost predicate ProgramKeeps<W>(h: Ops<W>, p: seq<Block>, envs: seq<Env>, visited: seq<bool>, width: nat)
    requires Shaped(p, envs, visited, width)
  {
    forall b :: 0 <= b < |p| && visited[b] ==> assert p[b].Fits(width); BlockKeeps(h, p[b], envs[b])
  }

  /** No `void`, no bitwise and, no conditional anywhere: to see so, the analysis is not needed. */
  predicate StrictProgram(p: seq<Block>) {
    forall b :: 0 <= b < |p| ==> StrictBlock(p[b])
  }

  predicate StrictBlock(block: Block) {
    StrictList(block.body) && (block.term.Branch? ==> Strict(block.term.cond))
  }

  /** Such a program keeps its effects, whatever the analysis comes out as. */
  lemma StrictProgramKeeps<W>(h: Ops<W>, p: seq<Block>, envs: seq<Env>, visited: seq<bool>, width: nat)
    requires Shaped(p, envs, visited, width) && StrictProgram(p)
    ensures ProgramKeeps(h, p, envs, visited, width)
  {
    hide Known, KeepsEffects, ListKeeps, Strict, StrictList, Silent;
    forall b | 0 <= b < |p| && visited[b] ensures p[b].Fits(width) && BlockKeeps(h, p[b], envs[b]) {
      assert p[b].Fits(width) && StrictBlock(p[b]);
      StrictListKeeps(h, p[b].body, envs[b]);
      if p[b].term.Branch? {
        StrictKeeps(h, p[b].term.cond, OutOf(h, p[b], envs[b]));
      }
    }
  }

  lemma StepWritten<W>(h: Ops<W>, p: seq<Block>, envs: seq<Env>, visited: seq<bool>, width: nat, s: Where<W>)
    requires Shaped(p, envs, visited, width) && (s.Here? ==> |s.vals| == width) && Foreseen(p, envs, visited, s)
    requires ProgramKeeps(h, p, envs, visited, width)
    ensures StepBlock(h, WrittenProgram(h, p, envs, visited, width), s) == StepBlock(h, p, s)
  {
    hide Known, Written, WrittenList, ListKeeps, KeepsEffects, After, Exec, Eval;
    if s.Here? && s.b < |p| && p[s.b].live {
      var block, env := p[s.b], envs[s.b];
      assert block.Fits(width) && BlockKeeps(h, block, env);
      WrittenListSound(h, block.body, env, s.vals, s.w);
      var f := Exec(h, block.body, s.vals, s.w);
      if f.Goes? {
        AfterSound(h, block.body, env, s.vals, s.w);
        FollowWritten(h, block.term, OutOf(h, block, env), f.vals, f.w);
      }
    }
  }

  lemma FollowWritten<W>(h: Ops<W>, term: Term, env: Env, vals: seq<Val>, w: W)
    requires term.Fits(|env|) && DescribesAll(env, vals) && (term.Branch? ==> KeepsEffects(h, term.cond, env))
    ensures Follow(h, WrittenTerm(h, term, env), vals, w) == Follow(h, term, vals, w)
  {
    hide Written;
    if term.Branch? {
      WrittenSound(h, term.cond, env, vals, w);
      if TruthOf(Known(h, term.cond, env)).Some? {
        SilentYields(h, term.cond, env, vals, w);
        KnownSound(h, term.cond, env, vals, w);
      }
    }
  }

  /** The rewritten program runs as the program did, block by block: same places, values, worlds and
      ends. In particular no run enters a block that was marked dead. */
  lemma {:induction false} RewritePreserves<W>(h: Ops<W>, p: seq<Block>, envs: seq<Env>, visited: seq<bool>, width: nat, s: Where<W>, n: nat)
    requires Solution(h, p, envs, visited, width) && (s.Here? ==> |s.vals| == width) && Foreseen(p, envs, visited, s)
    requires ProgramKeeps(h, p, envs, visited, width)
    ensures RunBlocks(h, WrittenProgram(h, p, envs, visited, width), s, n) == RunBlocks(h, p, s, n)
    decreases n
  {
    if n > 0 {
      hide StepBlock, WrittenProgram, ProgramKeeps;
      StepForeseen(h, p, envs, visited, width, s);
      StepWritten(h, p, envs, visited, width, s);
      RewritePreserves(h, p, envs, visited, width, StepBlock(h, p, s), n - 1);
    }
  }
}
