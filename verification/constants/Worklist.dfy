/** The propagation over a program with cycles: blocks whose environment changed wait in a stack. */
module Worklist {
  import opened Basics
  import opened Values
  import opened Lattice
  import opened Programs
  import opened Propagation
  import opened Solutions

  const MAX_ROUNDS := 64

  // ----- Roots -----

  /** The targets written into a terminator. */
  function Targets(term: Term): set<nat> {
    match term
    case Goto(t) => {t}
    case Branch(_, _, t, e) => {t, e}
    case Dynamic(Some(t)) => {t}
    case _ => {}
  }

  /** The first block, and every other that no block names as its target. */
  ghost predicate IsRoot(p: seq<Block>, b: nat)
    requires b < |p|
  {
    p[b].live && (b == 0 || forall c :: 0 <= c < |p| ==> b !in Targets(p[c].term))
  }

  /** What is known at a root: nothing, but that the variables of the function are undefined at first. */
  function Entry(b: nat, nregs: nat, width: nat): (env: Env)
    ensures |env| == width
  {
    seq(width, i => if b == 0 && nregs <= i then Lit(Undef) else Bot)
  }

  method FindRoots(p: seq<Block>) returns (roots: seq<bool>)
    ensures |roots| == |p| && forall b :: 0 <= b < |p| ==> (roots[b] <==> IsRoot(p, b))
  {
    var preds := seq(|p|, _ => 0);
    for c := 0 to |p|
      invariant |preds| == |p|
      invariant forall b :: 0 <= b < |p| ==> preds[b] >= 0 && (preds[b] == 0 <==> Unnamed(p, c, b))
    {
      ghost var was := preds;
      match p[c].term
      case Goto(t) => preds := Count(preds, t);
      case Branch(_, _, t, e) =>
        preds := Count(preds, t);
        preds := Count(preds, e);
      case Dynamic(Some(t)) => preds := Count(preds, t);
      case _ =>
      forall b | 0 <= b < |p| ensures preds[b] >= 0 && (preds[b] == 0 <==> Unnamed(p, c + 1, b)) {
        assert preds[b] == 0 <==> was[b] == 0 && b !in Targets(p[c].term);
        assert Unnamed(p, c + 1, b) <==> Unnamed(p, c, b) && b !in Targets(p[c].term);
      }
    }
    roots := seq(|p|, b requires 0 <= b < |p| => p[b].live && (b == 0 || preds[b] == 0));
    forall b | 0 <= b < |p| ensures roots[b] <==> IsRoot(p, b) {
      assert Unnamed(p, |p|, b) <==> forall c :: 0 <= c < |p| ==> b !in Targets(p[c].term);
    }
  }

  ghost predicate Unnamed(p: seq<Block>, n: nat, b: nat)
    requires n <= |p|
  {
    forall c :: 0 <= c < n ==> b !in Targets(p[c].term)
  }

  function Count(preds: seq<int>, t: nat): seq<int> {
    if t < |preds| then preds[t := preds[t] + 1] else preds
  }

  // ----- The state of the propagation -----

  /** Environments, blocks visited, and the stack of blocks that wait. */
  datatype State = State(envs: seq<Env>, visited: seq<bool>, work: seq<nat>) {
    predicate Waits(b: nat) {
      b in work
    }

    predicate Seen(b: nat)
      requires b < |visited|
    {
      visited[b] || Waits(b)
    }
  }

  ghost predicate Proper(p: seq<Block>, s: State, width: nat) {
    && Shaped(p, s.envs, s.visited, width) && Distinct(s.work)
    && forall i :: 0 <= i < |s.work| ==> s.work[i] < |p|
  }

  /** What block b leaves behind has reached t. */
  ghost predicate Reached<W>(h: Ops<W>, p: seq<Block>, s: State, width: nat, b: nat, t: nat)
    requires Shaped(p, s.envs, s.visited, width) && b < |p|
  {
    assert p[b].Fits(width);
    t < |p| ==> s.Seen(t) && BelowAll(s.envs[t], OutOf(h, p[b], s.envs[b]))
  }

  ghost predicate Settled<W>(h: Ops<W>, p: seq<Block>, s: State, width: nat, b: nat)
    requires Shaped(p, s.envs, s.visited, width) && b < |p|
  {
    assert p[b].Fits(width);
    forall t :: t in Successors(h, p[b], s.envs[b]) ==> Reached(h, p, s, width, b, t)
  }

  /** Every block visited that does not wait has told its successors, except perhaps `but`. */
  ghost predicate AllSettled<W>(h: Ops<W>, p: seq<Block>, s: State, width: nat, but: nat)
    requires Shaped(p, s.envs, s.visited, width)
  {
    forall b :: 0 <= b < |p| && b != but && s.visited[b] && !s.Waits(b) ==> Settled(h, p, s, width, b)
  }

  ghost predicate RootsSeen(p: seq<Block>, s: State, nregs: nat, width: nat)
    requires Shaped(p, s.envs, s.visited, width)
  {
    forall b :: 0 <= b < |p| && IsRoot(p, b) ==> s.Seen(b) && BelowAll(s.envs[b], Entry(b, nregs, width))
  }

  // ----- One block tells a successor -----

  /** Meets what is known at t with `out`, and lets t wait if that changes something or t is new. */
  function Tell(s: State, t: nat, out: Env): (r: State)
    requires |s.envs| == |s.visited| && (t < |s.envs| ==> |s.envs[t]| == |out|)
    ensures |r.envs| == |s.envs| && r.visited == s.visited
  {
    if t >= |s.envs| then s
    else
      var met := MeetAll(s.envs[t], out);
      var changed := !s.visited[t] || met != s.envs[t];
      State(s.envs[t := met], s.visited, if changed && !s.Waits(t) then s.work + [t] else s.work)
  }

  lemma TellKeeps<W>(h: Ops<W>, p: seq<Block>, s: State, width: nat, nregs: nat, but: nat, t: nat, out: Env)
    requires Proper(p, s, width) && |out| == width && but < |p|
    requires AllSettled(h, p, s, width, but) && RootsSeen(p, s, nregs, width)
    ensures var r := Tell(s, t, out);
            && Proper(p, r, width) && AllSettled(h, p, r, width, but) && RootsSeen(p, r, nregs, width)
            && (forall b :: 0 <= b < |p| && s.Seen(b) ==> r.Seen(b)) && (forall b :: 0 <= b < |p| ==> BelowAll(r.envs[b], s.envs[b]))
            && (t < |p| ==> r.Seen(t) && BelowAll(r.envs[t], out))
            && (forall b :: 0 <= b < |p| && r.envs[b] != s.envs[b] ==> r.Waits(b))
  {
    hide OutOf, Successors, IsRoot;
    var r := Tell(s, t, out);
    TellMeets(p, s, width, t, out);
    forall b | 0 <= b < |p| && b != but && r.visited[b] && !r.Waits(b) ensures Settled(h, p, r, width, b) {
      assert r.envs[b] == s.envs[b] && !s.Waits(b);
      assert p[b].Fits(width) && Settled(h, p, s, width, b);
      forall u | u in Successors(h, p[b], r.envs[b]) ensures Reached(h, p, r, width, b, u) {
        assert Reached(h, p, s, width, b, u);
        if u < |p| {
          BelowAllOn(r.envs[u], s.envs[u], OutOf(h, p[b], s.envs[b]));
        }
      }
    }
    forall b | 0 <= b < |p| && IsRoot(p, b) ensures r.Seen(b) && BelowAll(r.envs[b], Entry(b, nregs, width)) {
      BelowAllOn(r.envs[b], s.envs[b], Entry(b, nregs, width));
    }
  }

  lemma TellMeets(p: seq<Block>, s: State, width: nat, t: nat, out: Env)
    requires Proper(p, s, width) && |out| == width
    ensures var r := Tell(s, t, out);
            && Proper(p, r, width)
            && (forall b :: 0 <= b < |p| && s.Seen(b) ==> r.Seen(b)) && (forall b :: 0 <= b < |p| ==> BelowAll(r.envs[b], s.envs[b]))
            && (t < |p| ==> r.Seen(t) && BelowAll(r.envs[t], out))
            && (forall b :: 0 <= b < |p| && r.envs[b] != s.envs[b] ==> r.Waits(b))
            && (forall b :: s.Waits(b) ==> r.Waits(b))
  {
    var r := Tell(s, t, out);
    if t < |p| {
      var met := MeetAll(s.envs[t], out);
      assert BelowAll(met, s.envs[t]) && BelowAll(met, out);
      assert t in s.work + [t];
    }
  }

  // ----- The loop -----

  /** The feasible successors, in the order in which they are told. */
  function FeasibleSeq<W>(h: Ops<W>, term: Term, env: Env): (r: seq<nat>)
    requires term.Fits(|env|)
    ensures |r| <= 2 && forall t :: t in r <==> t in Feasible(h, term, env)
  {
    match term
    case Goto(t) => [t]
    case Branch(c, when, t, e) =>
      (match TruthOf(Known(h, c, env))
       case Some(b) => if b == when then [t] else [e]
       case None => [t, e])
    case Dynamic(Some(t)) => [t]
    case _ => []
  }

  function TellAll(s: State, ts: seq<nat>, out: Env): (r: State)
    requires |s.envs| == |s.visited| && forall b :: 0 <= b < |s.envs| ==> |s.envs[b]| == |out|
    ensures |r.envs| == |s.envs| && r.visited == s.visited
    decreases |ts|
  {
    if ts == [] then s else TellAll(Tell(s, ts[0], out), ts[1..], out)
  }

  lemma {:induction false} TellAllKeeps<W>(h: Ops<W>, p: seq<Block>, s: State, width: nat, nregs: nat, but: nat, ts: seq<nat>, out: Env)
    requires Proper(p, s, width) && |out| == width && but < |p|
    requires AllSettled(h, p, s, width, but) && RootsSeen(p, s, nregs, width)
    ensures var r := TellAll(s, ts, out);
            && Proper(p, r, width) && AllSettled(h, p, r, width, but) && RootsSeen(p, r, nregs, width)
            && (forall b :: 0 <= b < |p| && s.Seen(b) ==> r.Seen(b)) && (forall b :: 0 <= b < |p| ==> BelowAll(r.envs[b], s.envs[b]))
            && (forall t :: t in ts && t < |p| ==> r.Seen(t) && BelowAll(r.envs[t], out))
            && (forall b :: 0 <= b < |p| && r.envs[b] != s.envs[b] ==> r.Waits(b))
            && (forall b :: s.Waits(b) ==> r.Waits(b))
    decreases |ts|
  {
    hide OutOf, IsRoot, AllSettled, Tell;
    if ts != [] {
      var m, r := Tell(s, ts[0], out), TellAll(s, ts, out);
      TellMeets(p, s, width, ts[0], out);
      TellKeeps(h, p, s, width, nregs, but, ts[0], out);
      TellAllKeeps(h, p, m, width, nregs, but, ts[1..], out);
      forall b | 0 <= b < |p| ensures BelowAll(r.envs[b], s.envs[b]) {
        BelowAllOn(r.envs[b], m.envs[b], s.envs[b]);
      }
      if ts[0] < |p| {
        BelowAllOn(r.envs[ts[0]], m.envs[ts[0]], out);
      }
      forall b | 0 <= b < |p| && r.envs[b] != s.envs[b] ensures r.Waits(b) {
        assert m.envs[b] != s.envs[b] ==> m.Waits(b);
      }
    }
  }

  /** One round: the block on top of the stack is evaluated and tells its successors. */
  lemma RoundKeeps<W>(h: Ops<W>, p: seq<Block>, s: State, width: nat, nregs: nat)
    requires Proper(p, s, width) && s.work != [] && AllSettled(h, p, s, width, |p|) && RootsSeen(p, s, nregs, width)
    ensures var (b, m) := Popped(s);
            b < |p| && p[b].Fits(width) &&
            var out := OutOf(h, p[b], s.envs[b]);
            var r := TellAll(m, FeasibleSeq(h, p[b].term, out), out);
            Proper(p, r, width) && AllSettled(h, p, r, width, |p|) && RootsSeen(p, r, nregs, width)
  {
    hide OutOf, IsRoot, TellAll;
    var (b, m) := Popped(s);
    assert s.work == m.work + [b];
    assert p[b].Fits(width);
    PoppedKeeps(h, p, s, width, nregs);
    var out := OutOf(h, p[b], s.envs[b]);
    var ts := FeasibleSeq(h, p[b].term, out);
    TellAllKeeps(h, p, m, width, nregs, b, ts, out);
    var r := TellAll(m, ts, out);
    forall c | 0 <= c < |p| && r.visited[c] && !r.Waits(c) ensures Settled(h, p, r, width, c) {
      if c == b {
        assert r.envs[b] == s.envs[b];
        forall t | t in Successors(h, p[b], r.envs[b]) ensures Reached(h, p, r, width, b, t) {
          assert t in ts;
        }
      }
    }
  }

  function Popped(s: State): (nat, State)
    requires s.work != [] && |s.envs| == |s.visited|
  {
    var b := s.work[|s.work| - 1];
    (b, State(s.envs, if b < |s.visited| then s.visited[b := true] else s.visited, s.work[..|s.work| - 1]))
  }

  lemma PoppedKeeps<W>(h: Ops<W>, p: seq<Block>, s: State, width: nat, nregs: nat)
    requires Proper(p, s, width) && s.work != [] && AllSettled(h, p, s, width, |p|) && RootsSeen(p, s, nregs, width)
    ensures var (b, m) := Popped(s);
            b < |p| && Proper(p, m, width) && AllSettled(h, p, m, width, b) && RootsSeen(p, m, nregs, width)
            && forall c :: 0 <= c < |p| ==> (m.Seen(c) <==> s.Seen(c))
  {
    hide OutOf, Successors, IsRoot;
    var (b, m) := Popped(s);
    assert s.work == m.work + [b];
    forall c | 0 <= c < |p| && c != b && m.visited[c] && !m.Waits(c) ensures Settled(h, p, m, width, c) {
      assert Settled(h, p, s, width, c) && p[c].Fits(width);
      forall t | t in Successors(h, p[c], m.envs[c]) ensures Reached(h, p, m, width, c, t) {
        assert Reached(h, p, s, width, c, t);
      }
    }
  }

  // ----- How long it can take -----

  ghost predicate SeenWhole(s: State)
    requires |s.envs| == |s.visited|
  {
    forall b :: 0 <= b < |s.envs| && s.Seen(b) ==> Whole(s.envs[b])
  }

  /** How often a block can still be put to wait: once to be seen, and once for each constant it loses. */
  function Cost(s: State, width: nat, b: nat): nat
    requires b < |s.envs| == |s.visited|
  {
    if s.Seen(b) then Lits(s.envs[b]) else width + 1
  }

  function TotalCost(s: State, width: nat, n: nat): nat
    requires n <= |s.envs| == |s.visited|
  {
    if n == 0 then 0 else TotalCost(s, width, n - 1) + Cost(s, width, n - 1)
  }

  /** What is left to do: every round takes one off, and telling a successor adds nothing. */
  function Budget(s: State, width: nat): nat
    requires |s.envs| == |s.visited|
  {
    |s.work| + TotalCost(s, width, |s.envs|)
  }

  lemma {:induction false} CostChanges(s: State, r: State, width: nat, n: nat, t: nat)
    requires n <= |s.envs| == |s.visited| == |r.envs| == |r.visited| && t < |s.envs|
    requires forall b :: 0 <= b < n && b != t ==> Cost(r, width, b) == Cost(s, width, b)
    ensures TotalCost(r, width, n) == TotalCost(s, width, n) + (if t < n then Cost(r, width, t) - Cost(s, width, t) else 0)
  {
    hide Cost;
    if n > 0 {
      CostChanges(s, r, width, n - 1, t);
    }
  }

  lemma TellBudget(s: State, width: nat, t: nat, out: Env)
    requires |s.envs| == |s.visited| && (t < |s.envs| ==> |s.envs[t]| == width) && |out| == width && Whole(out) && SeenWhole(s)
    ensures SeenWhole(Tell(s, t, out)) && Budget(Tell(s, t, out), width) <= Budget(s, width)
  {
    if t < |s.envs| {
      var r := Tell(s, t, out);
      hide Whole, MeetAll, Lits;
      MeetLoses(s.envs[t], out);
      assert forall b :: b in s.work + [t] <==> b in s.work || b == t;
      CostChanges(s, r, width, |s.envs|, t);
    }
  }

  lemma {:induction false} TellAllBudget(s: State, width: nat, ts: seq<nat>, out: Env)
    requires |s.envs| == |s.visited| && (forall b :: 0 <= b < |s.envs| ==> |s.envs[b]| == width)
    requires |out| == width && Whole(out) && SeenWhole(s)
    ensures SeenWhole(TellAll(s, ts, out)) && Budget(TellAll(s, ts, out), width) <= Budget(s, width)
    decreases |ts|
  {
    if ts != [] {
      hide Budget, SeenWhole, Whole;
      TellBudget(s, width, ts[0], out);
      TellAllBudget(Tell(s, ts[0], out), width, ts[1..], out);
    }
  }

  lemma PoppedBudget(s: State, width: nat)
    requires s.work != [] && |s.envs| == |s.visited| && s.work[|s.work| - 1] < |s.visited| && SeenWhole(s)
    ensures Budget(Popped(s).1, width) == Budget(s, width) - 1 && SeenWhole(Popped(s).1)
  {
    var (b, m) := Popped(s);
    assert s.work == m.work + [b];
    assert forall c :: 0 <= c < |s.envs| ==> (m.Seen(c) <==> s.Seen(c));
    CostChanges(s, m, width, |s.envs|, b);
  }

  // ----- The start -----

  function StartWork(roots: seq<bool>, n: nat): (work: seq<nat>)
    requires n <= |roots|
    ensures Distinct(work) && forall b: nat :: b in work <==> b < n && roots[b]
    ensures forall i :: 0 <= i < |work| ==> work[i] < n
  {
    if n == 0 then []
    else if roots[n - 1] then StartWork(roots, n - 1) + [n - 1]
    else StartWork(roots, n - 1)
  }

  function Start(p: seq<Block>, roots: seq<bool>, nregs: nat, width: nat): (s: State)
    requires |roots| == |p|
    ensures |s.envs| == |s.visited| == |p| && forall b :: 0 <= b < |p| ==> |s.envs[b]| == width
  {
    State(seq(|p|, b requires 0 <= b < |p| => if roots[b] then Entry(b, nregs, width) else seq(width, _ => Top)),
          seq(|p|, _ => false), StartWork(roots, |p|))
  }

  /** At the start every block costs at most one more than there are slots, its own waiting included. */
  lemma {:induction false} StartCosts(s: State, roots: seq<bool>, width: nat, n: nat)
    requires n <= |roots| == |s.visited| == |s.envs| && (forall b :: 0 <= b < |roots| ==> !s.visited[b]) && s.work == StartWork(roots, |roots|)
    requires forall b :: 0 <= b < |s.envs| ==> |s.envs[b]| == width
    ensures |StartWork(roots, n)| + TotalCost(s, width, n) <= n * (width + 1)
  {
    if n > 0 {
      StartCosts(s, roots, width, n - 1);
      assert n * (width + 1) == (n - 1) * (width + 1) + (width + 1);
    }
  }

  lemma StartKeeps<W>(h: Ops<W>, p: seq<Block>, roots: seq<bool>, nregs: nat, width: nat)
    requires |roots| == |p| && ProgramFits(p, width) && forall b :: 0 <= b < |p| ==> (roots[b] <==> IsRoot(p, b))
    ensures var s := Start(p, roots, nregs, width);
            && Proper(p, s, width) && AllSettled(h, p, s, width, |p|) && RootsSeen(p, s, nregs, width)
            && SeenWhole(s) && Budget(s, width) <= |p| * (width + 1)
  {
    hide IsRoot, Settled;
    var s := Start(p, roots, nregs, width);
    StartCosts(s, roots, width, |p|);
  }

  // ----- Round by round -----

  ghost function RootsOf(p: seq<Block>): (roots: seq<bool>)
    ensures |roots| == |p| && forall b :: 0 <= b < |p| ==> (roots[b] <==> IsRoot(p, b))
  {
    seq(|p|, b requires 0 <= b < |p| => IsRoot(p, b))
  }

  ghost predicate Sized(p: seq<Block>, s: State, width: nat) {
    && Shaped(p, s.envs, s.visited, width) && forall i :: 0 <= i < |s.work| ==> s.work[i] < |p|
  }

  lemma {:induction false} TellAllSized(p: seq<Block>, s: State, width: nat, ts: seq<nat>, out: Env)
    requires Sized(p, s, width) && |out| == width
    ensures Sized(p, TellAll(s, ts, out), width)
    decreases |ts|
  {
    if ts != [] {
      TellAllSized(p, Tell(s, ts[0], out), width, ts[1..], out);
    }
  }

  /** The block on top of the stack is evaluated and tells its successors; once none waits, nothing happens. */
  ghost function Turn<W>(h: Ops<W>, p: seq<Block>, width: nat, s: State): (r: State)
    requires Sized(p, s, width)
    ensures Sized(p, r, width)
  {
    if s.work == [] then s
    else
      var (b, m) := Popped(s);
      assert p[b].Fits(width) && Sized(p, m, width);
      var out := OutOf(h, p[b], s.envs[b]);
      TellAllSized(p, m, width, FeasibleSeq(h, p[b].term, out), out);
      TellAll(m, FeasibleSeq(h, p[b].term, out), out)
  }

  ghost function Turns<W>(h: Ops<W>, p: seq<Block>, width: nat, s: State, k: nat): (r: State)
    requires Sized(p, s, width)
    ensures Sized(p, r, width)
  {
    if k == 0 then s else Turn(h, p, width, Turns(h, p, width, s, k - 1))
  }

  lemma {:induction false} TurnsStay<W>(h: Ops<W>, p: seq<Block>, width: nat, s: State, j: nat, k: nat)
    requires Sized(p, s, width) && j <= k && Turns(h, p, width, s, j).work == []
    ensures Turns(h, p, width, s, k) == Turns(h, p, width, s, j)
    decreases k
  {
    hide Turn;
    if j < k {
      TurnsStay(h, p, width, s, j, k - 1);
      NoTurn(h, p, width, Turns(h, p, width, s, k - 1));
    }
  }

  lemma NoTurn<W>(h: Ops<W>, p: seq<Block>, width: nat, s: State)
    requires Sized(p, s, width) && s.work == []
    ensures Turn(h, p, width, s) == s
  {
  }

  /** What holds between rounds. */
  ghost predicate Underway<W>(h: Ops<W>, p: seq<Block>, s: State, width: nat, nregs: nat, rounds: nat) {
    && Proper(p, s, width) && AllSettled(h, p, s, width, |p|) && RootsSeen(p, s, nregs, width)
    && SeenWhole(s) && rounds + Budget(s, width) <= |p| * (width + 1)
  }

  lemma TurnUnderway<W>(h: Ops<W>, p: seq<Block>, s: State, width: nat, nregs: nat, rounds: nat)
    requires Underway(h, p, s, width, nregs, rounds) && s.work != []
    ensures Sized(p, s, width) && Underway(h, p, Turn(h, p, width, s), width, nregs, rounds + 1)
  {
    hide IsRoot, OutOf, Budget, TellAll, SeenWhole, AllSettled, RootsSeen;
    var (b, m) := Popped(s);
    assert b in s.work;
    RoundKeeps(h, p, s, width, nregs);
    PoppedBudget(s, width);
    TopWhole(s, b);
    OutWhole(h, p[b], s.envs[b]);
    var out := OutOf(h, p[b], s.envs[b]);
    TellAllBudget(m, width, FeasibleSeq(h, p[b].term, out), out);
  }

  lemma OutWhole<W>(h: Ops<W>, block: Block, env: Env)
    requires block.Fits(|env|) && Whole(env)
    ensures Whole(OutOf(h, block, env))
  {
    AfterWhole(h, block.body, env);
  }

  /** How many rounds there may be. */
  function Limit(n: nat): nat {
    MAX_ROUNDS * n + 64
  }

  ghost function StartOf(p: seq<Block>, nregs: nat, width: nat): (s: State)
    requires ProgramFits(p, width)
    ensures Sized(p, s, width)
  {
    Start(p, RootsOf(p), nregs, width)
  }

  /** After the last round allowed. */
  ghost function AtLimit<W>(h: Ops<W>, p: seq<Block>, nregs: nat, width: nat): (s: State)
    requires ProgramFits(p, width)
    ensures Sized(p, s, width)
  {
    Turns(h, p, width, StartOf(p, nregs, width), Limit(|p|))
  }

  /** What the loop is left with: if blocks still wait, the one on top counts as visited. */
  ghost function LeftWith(s: State): State
    requires |s.envs| == |s.visited|
  {
    if s.work == [] then s else Popped(s).1
  }

  // ----- The method -----

  /** Runs the propagation. It is cut short exactly if blocks still wait after the last round allowed; if not, it
      comes out as a solution that holds at the roots. With at most 63 slots it is never cut short. */
  method Propagate<W>(h: Ops<W>, p: seq<Block>, nregs: nat, width: nat) returns (envs: seq<Env>, visited: seq<bool>, done: bool)
    requires ProgramFits(p, width)
    ensures Shaped(p, envs, visited, width)
    ensures done <==> AtLimit(h, p, nregs, width).work == []
    ensures envs == LeftWith(AtLimit(h, p, nregs, width)).envs && visited == LeftWith(AtLimit(h, p, nregs, width)).visited
    ensures done ==> Solution(h, p, envs, visited, width)
    ensures done ==> forall b :: 0 <= b < |p| && IsRoot(p, b) ==> visited[b] && BelowAll(envs[b], Entry(b, nregs, width))
    ensures width <= 63 ==> done
  {
    hide Underway, OutOf, TellAll, IsRoot, Turn, Turns, Solution, Shaped, Distinct, ProgramFits, Block.Fits, BelowAll, Start, RootsOf, Sized;
    var roots := FindRoots(p);
    var s := Start(p, roots, nregs, width);
    StartUnderway(h, p, roots, width, nregs);
    ghost var start := StartOf(p, nregs, width);
    FirstTurns(h, p, width, start);
    var rounds: nat := 0;
    while s.work != []
      invariant Sized(p, s, width) && rounds <= Limit(|p|)
      invariant s == Turns(h, p, width, start, rounds)
      invariant Underway(h, p, s, width, nregs, rounds)
      decreases Limit(|p|) - rounds
    {
      NextTurns(h, p, width, start, rounds);
      var (b, m) := Popped(s);
      if rounds + 1 > MAX_ROUNDS * |p| + 64 {
        CutShort(h, p, s, width, nregs, rounds);
        return m.envs, m.visited, false;
      }
      rounds := rounds + 1;
      TurnUnderway(h, p, s, width, nregs, rounds - 1);
      var out := OutOf(h, p[b], s.envs[b]);
      s := TellAll(m, FeasibleSeq(h, p[b].term, out), out);
    }
    TurnsStay(h, p, width, start, rounds, Limit(|p|));
    envs, visited, done := s.envs, s.visited, true;
    SettledIsSolution(h, p, s, width, nregs, rounds);
  }

  lemma StartUnderway<W>(h: Ops<W>, p: seq<Block>, roots: seq<bool>, width: nat, nregs: nat)
    requires ProgramFits(p, width) && |roots| == |p| && forall b :: 0 <= b < |p| ==> (roots[b] <==> IsRoot(p, b))
    ensures Start(p, roots, nregs, width) == StartOf(p, nregs, width)
    ensures Underway(h, p, Start(p, roots, nregs, width), width, nregs, 0)
  {
    hide IsRoot, AllSettled, RootsSeen, SeenWhole, Budget, Start;
    assert roots == RootsOf(p);
    StartKeeps(h, p, roots, nregs, width);
  }

  lemma FirstTurns<W>(h: Ops<W>, p: seq<Block>, width: nat, s: State)
    requires Sized(p, s, width)
    ensures Turns(h, p, width, s, 0) == s
  {
    hide Turn;
  }

  /** One round more, spelled out. */
  lemma NextTurns<W>(h: Ops<W>, p: seq<Block>, width: nat, s: State, k: nat)
    requires Sized(p, s, width) && Turns(h, p, width, s, k).work != []
    ensures var now := Turns(h, p, width, s, k);
            var (b, m) := Popped(now);
            && b < |p| && |now.envs| == |now.visited| == |m.envs| == |m.visited| == |p| && p[b].Fits(|now.envs[b]|)
            && (forall c :: 0 <= c < |p| ==> |m.envs[c]| == width) && |now.envs[b]| == width && Sized(p, now, width)
            && Shaped(p, m.envs, m.visited, width)
            && var out := OutOf(h, p[b], now.envs[b]);
               p[b].term.Fits(width) && Turns(h, p, width, s, k + 1) == Turn(h, p, width, now) == TellAll(m, FeasibleSeq(h, p[b].term, out), out)
  {
    hide OutOf, TellAll, FeasibleSeq;
    var now := Turns(h, p, width, s, k);
    assert p[now.work[|now.work| - 1]].Fits(width);
  }

  lemma TopWhole(s: State, b: nat)
    requires |s.envs| == |s.visited| && SeenWhole(s) && s.work != [] && b == s.work[|s.work| - 1] < |s.envs|
    ensures Whole(s.envs[b])
  {
    assert b in s.work;
  }

  lemma CutShort<W>(h: Ops<W>, p: seq<Block>, s: State, width: nat, nregs: nat, rounds: nat)
    requires Underway(h, p, s, width, nregs, rounds) && s.work != [] && rounds + 1 > MAX_ROUNDS * |p| + 64
    ensures width > 63
  {
    hide AllSettled, RootsSeen, SeenWhole, Budget;
    RoundsLeft(|p|, width, rounds, Budget(s, width));
  }

  lemma RoundsLeft(n: nat, width: nat, rounds: nat, budget: nat)
    requires rounds + budget <= n * (width + 1) && rounds + 1 > MAX_ROUNDS * n + 64
    ensures width > 63
  {
    Times(n, width + 1, 64);
  }

  lemma Times(n: nat, a: nat, b: nat)
    ensures a <= b ==> n * a <= n * b
  {
    assert n * (b - a) == n * b - n * a;
  }

  lemma SettledIsSolution<W>(h: Ops<W>, p: seq<Block>, s: State, width: nat, nregs: nat, rounds: nat)
    requires Underway(h, p, s, width, nregs, rounds) && s.work == []
    ensures Shaped(p, s.envs, s.visited, width) && Solution(h, p, s.envs, s.visited, width)
    ensures forall b :: 0 <= b < |p| && IsRoot(p, b) ==> s.visited[b] && BelowAll(s.envs[b], Entry(b, nregs, width))
  {
    hide OutOf, Successors, IsRoot, Budget, SeenWhole;
    forall b | 0 <= b < |p| && s.visited[b] && p[b].live ensures Told(h, p, s.envs, s.visited, width, b) {
      assert Settled(h, p, s, width, b) && p[b].Fits(width);
      forall t | t in Successors(h, p[b], s.envs[b]) && t < |p| ensures Heard(h, p, s.envs, s.visited, width, b, t) {
        assert Reached(h, p, s, width, b, t);
      }
    }
  }

  /** After k rounds, or as many as there were. */
  lemma {:induction false} TurnsUnderway<W>(h: Ops<W>, p: seq<Block>, nregs: nat, width: nat, k: nat) returns (r: nat)
    requires ProgramFits(p, width)
    ensures var s := Turns(h, p, width, StartOf(p, nregs, width), k);
            Underway(h, p, s, width, nregs, r) && (s.work != [] ==> r == k)
  {
    hide Underway, Turn, IsRoot;
    if k == 0 {
      StartUnderway(h, p, RootsOf(p), width, nregs);
      r := 0;
    } else {
      r := TurnsUnderway(h, p, nregs, width, k - 1);
      var was := Turns(h, p, width, StartOf(p, nregs, width), k - 1);
      if was.work == [] {
        NoTurn(h, p, width, was);
      } else {
        TurnUnderway(h, p, was, width, nregs, r);
        r := r + 1;
      }
    }
  }

  /** If no block waits after the last round allowed, as is sure with at most 63 slots, a solution came out. */
  lemma AtLimitHolds<W>(h: Ops<W>, p: seq<Block>, nregs: nat, width: nat)
    requires ProgramFits(p, width) && (width <= 63 || AtLimit(h, p, nregs, width).work == [])
    ensures var s := LeftWith(AtLimit(h, p, nregs, width));
            && AtLimit(h, p, nregs, width).work == [] && Solution(h, p, s.envs, s.visited, width)
            && forall b :: 0 <= b < |p| && IsRoot(p, b) ==> s.visited[b] && BelowAll(s.envs[b], Entry(b, nregs, width))
  {
    hide Underway, Turns, IsRoot, Solution;
    var r := TurnsUnderway(h, p, nregs, width, Limit(|p|));
    var s := AtLimit(h, p, nregs, width);
    if s.work != [] {
      CutShort(h, p, s, width, nregs, r);
    } else {
      SettledIsSolution(h, p, s, width, nregs, r);
    }
  }
}
