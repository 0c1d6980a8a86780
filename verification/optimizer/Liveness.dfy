/** Dead-store elimination: strong liveness by backward sweeps over the ops, and what a solution
    of the liveness equations means for running the code. */
module Liveness {
  import opened Basics
  import opened Bytecode

  const DSE_ROUNDS: nat := 64

  /** No op. */
  const NONE: nat := 0xFFFF_FFFF

  /** What liveness needs to know of an op. */
  datatype Node = Node(uses: set<Reg>, def: set<Reg>, s1: nat, s2: nat, pure: bool, throws: bool, falls: bool)

  function Tracked(d: Option<Reg>): set<Reg> {
    if d.Some? && d.value < TRACKED then {d.value} else {}
  }

  function NodeOf(op: Op, lists: seq<Reg>): Node
    requires op.ListFits(lists)
  {
    var (s1, s2, falls, handler) :=
      if op.J? then (op.to, NONE, false, false)
      else if op.Jf? || op.Jt? || op.Jn? then (op.to, NONE, true, false)
      else if op.Br? || op.BrK? || op.BrVarK? then (op.thenArm, op.elseArm, false, false)
      else if op.Jump? || op.Ret? || op.Throw? then (NONE, NONE, false, true)
      else if op.Fail? then (NONE, NONE, false, false)
      else (NONE, NONE, true, false);
    Node(op.Uses(lists), Tracked(op.Def()), s1, s2,
         op.Pure() && Tracked(op.Def()) != {}, !op.Safe() || handler, falls)
  }

  /** Registers live on entry to op t; none beyond the code. */
  function LiveAt(live: seq<set<Reg>>, n: nat, t: nat): set<Reg>
    requires n <= |live|
  {
    if t < n then live[t] else {}
  }

  /** Registers live at some block that an exception or a computed jump can enter. */
  function HandlerLive(pcs: seq<(nat, nat)>, live: seq<set<Reg>>, n: nat): set<Reg>
    requires n <= |live|
  {
    if pcs == [] then {} else LiveAt(live, n, pcs[0].1) + HandlerLive(pcs[1..], live, n)
  }

  // ----- The equations -----

  function Out(nodes: seq<Node>, live: seq<set<Reg>>, hl: set<Reg>, i: nat): set<Reg>
    requires i < |nodes| && |nodes| + 2 == |live|
  {
    var nd := nodes[i];
    LiveAt(live, |nodes|, nd.s1) + LiveAt(live, |nodes|, nd.s2)
    + (if nd.falls then live[i + 1] else {}) + (if nd.throws then hl else {})
  }

  predicate Dead(nd: Node, out: set<Reg>) {
    nd.pure && out * nd.def == {}
  }

  function LiveIn(nd: Node, out: set<Reg>): set<Reg> {
    if Dead(nd, out) then out else out - nd.def + nd.uses
  }

  /** `live` solves the equations. */
  ghost predicate Solution(nodes: seq<Node>, pcs: seq<(nat, nat)>, live: seq<set<Reg>>) {
    && |live| == |nodes| + 2 && live[|nodes|] == {} && live[|nodes| + 1] == {}
    && forall i :: 0 <= i < |nodes| ==>
         live[i] == LiveIn(nodes[i], Out(nodes, live, HandlerLive(pcs, live, |nodes|), i))
  }

  /** `keep` drops exactly the dead stores of a solution. */
  ghost predicate KeepsLive(nodes: seq<Node>, pcs: seq<(nat, nat)>, live: seq<set<Reg>>, keep: seq<bool>)
    requires |live| == |nodes| + 2
  {
    && |keep| == |nodes|
    && forall i :: 0 <= i < |nodes| ==>
         keep[i] == !Dead(nodes[i], Out(nodes, live, HandlerLive(pcs, live, |nodes|), i))
  }

  ghost predicate Below(live: seq<set<Reg>>, other: seq<set<Reg>>) {
    |live| == |other| && forall i :: 0 <= i < |live| ==> live[i] <= other[i]
  }

  lemma {:induction false} HandlerLiveMonotone(pcs: seq<(nat, nat)>, live: seq<set<Reg>>, other: seq<set<Reg>>, n: nat)
    requires Below(live, other) && n <= |live|
    ensures HandlerLive(pcs, live, n) <= HandlerLive(pcs, other, n)
  {
    if pcs != [] {
      HandlerLiveMonotone(pcs[1..], live, other, n);
    }
  }

  lemma LiveInMonotone(nd: Node, out: set<Reg>, more: set<Reg>)
    requires out <= more
    ensures LiveIn(nd, out) <= LiveIn(nd, more)
  {
    forall r | r in LiveIn(nd, out) ensures r in LiveIn(nd, more) {
      if r in out && r in nd.def {
        assert r in out * nd.def && r in more * nd.def;
      }
      if Dead(nd, more) {
        assert out * nd.def <= more * nd.def;
      }
    }
  }

  // ----- The least solution -----

  /** Nothing is live here that is not live in every solution. */
  ghost predicate UnderAll(nodes: seq<Node>, pcs: seq<(nat, nat)>, live: seq<set<Reg>>) {
    forall other :: Solution(nodes, pcs, other) ==> Below(live, other)
  }

  ghost predicate HandlersUnderAll(nodes: seq<Node>, pcs: seq<(nat, nat)>, hl: set<Reg>) {
    forall other :: Solution(nodes, pcs, other) ==> hl <= HandlerLive(pcs, other, |nodes|)
  }

  /** The solution with the fewest live registers everywhere, so that no correct answer to the equations
      would drop more stores. */
  ghost predicate Least(nodes: seq<Node>, pcs: seq<(nat, nat)>, live: seq<set<Reg>>) {
    Solution(nodes, pcs, live) && UnderAll(nodes, pcs, live)
  }

  lemma LeastIsOne(nodes: seq<Node>, pcs: seq<(nat, nat)>, live: seq<set<Reg>>, other: seq<set<Reg>>)
    requires Least(nodes, pcs, live) && Least(nodes, pcs, other)
    ensures live == other
  {
    hide Solution;
    assert Below(live, other) && Below(other, live);
    forall i | 0 <= i < |live| ensures live[i] == other[i] {
      assert live[i] <= other[i] && other[i] <= live[i];
    }
  }

  /** A sweep that stays below all solutions stays below them at the next op too. */
  lemma SweepStaysUnder(nodes: seq<Node>, pcs: seq<(nat, nat)>, live: seq<set<Reg>>, hl: set<Reg>, i: nat)
    requires UnderAll(nodes, pcs, live) && HandlersUnderAll(nodes, pcs, hl) && i < |nodes| && |live| == |nodes| + 2
    ensures UnderAll(nodes, pcs, live[i := LiveIn(nodes[i], Out(nodes, live, hl, i))])
  {
    forall other | Solution(nodes, pcs, other) ensures Below(live[i := LiveIn(nodes[i], Out(nodes, live, hl, i))], other) {
      LiveInMonotone(nodes[i], Out(nodes, live, hl, i), Out(nodes, other, HandlerLive(pcs, other, |nodes|), i));
    }
  }

  lemma HandlersStayUnder(nodes: seq<Node>, pcs: seq<(nat, nat)>, live: seq<set<Reg>>)
    requires UnderAll(nodes, pcs, live) && |live| == |nodes| + 2
    ensures HandlersUnderAll(nodes, pcs, HandlerLive(pcs, live, |nodes|))
  {
    hide HandlerLive;
    forall other | Solution(nodes, pcs, other) ensures HandlerLive(pcs, live, |nodes|) <= HandlerLive(pcs, other, |nodes|) {
      HandlerLiveMonotone(pcs, live, other, |nodes|);
    }
  }

  // ----- Sweeps -----

  /** What is live after sweeping backward down to op i. */
  function SweepFrom(nodes: seq<Node>, live: seq<set<Reg>>, hl: set<Reg>, i: nat): (r: seq<set<Reg>>)
    requires |live| == |nodes| + 2 && i <= |nodes|
    ensures |r| == |live| && (forall j :: 0 <= j < i ==> r[j] == live[j]) && r[|nodes|..] == live[|nodes|..]
    decreases |nodes| - i
  {
    if i == |nodes| then live
    else
      var s := SweepFrom(nodes, live, hl, i + 1);
      s[i := LiveIn(nodes[i], Out(nodes, s, hl, i))]
  }

  /** What is live after k sweeps. */
  function Rounds(nodes: seq<Node>, pcs: seq<(nat, nat)>, k: nat): (r: seq<set<Reg>>)
    ensures |r| == |nodes| + 2
  {
    if k == 0 then seq(|nodes| + 2, _ => {})
    else
      var was := Rounds(nodes, pcs, k - 1);
      SweepFrom(nodes, was, HandlerLive(pcs, was, |nodes|), 0)
  }

  ghost predicate SettlesAt(nodes: seq<Node>, pcs: seq<(nat, nat)>, k: nat) {
    Rounds(nodes, pcs, k + 1) == Rounds(nodes, pcs, k)
  }

  /** Some sweep among the first 64 changes nothing. */
  ghost predicate Settles(nodes: seq<Node>, pcs: seq<(nat, nat)>) {
    exists k: nat :: k < DSE_ROUNDS && SettlesAt(nodes, pcs, k)
  }

  /** The equations hold from op `from` on, for the handler liveness given. */
  ghost predicate SolvedFrom(nodes: seq<Node>, live: seq<set<Reg>>, hl: set<Reg>, keep: seq<bool>, from: nat)
    requires |nodes| + 2 == |live| && |keep| == |nodes|
  {
    forall j :: from <= j < |nodes| ==>
      var out := Out(nodes, live, hl, j);
      live[j] == LiveIn(nodes[j], out) && keep[j] == !Dead(nodes[j], out)
  }

  method HandlersLive(pcs: seq<(nat, nat)>, live: array<set<Reg>>, n: nat) returns (hl: set<Reg>)
    requires n <= live.Length
    ensures hl == HandlerLive(pcs, live[..], n)
  {
    hl := {};
    var i := |pcs|;
    while i > 0
      invariant 0 <= i <= |pcs| && hl == HandlerLive(pcs[i..], live[..], n)
    {
      i := i - 1;
      assert pcs[i..][1..] == pcs[i + 1..];
      hl := (if pcs[i].1 < n then live[pcs[i].1] else {}) + hl;
    }
    assert pcs[0..] == pcs;
  }

  lemma SolvedAt(nodes: seq<Node>, live: seq<set<Reg>>, hl: set<Reg>, keep: seq<bool>, i: nat)
    requires |nodes| + 2 == |live| && |keep| == |nodes| && i < |nodes|
    requires SolvedFrom(nodes, live, hl, keep, i + 1) && live[i] == LiveIn(nodes[i], Out(nodes, live, hl, i))
    ensures SolvedFrom(nodes, live, hl, keep[i := !Dead(nodes[i], Out(nodes, live, hl, i))], i)
  {
    hide LiveIn, Dead, Out;
  }

  /** One backward sweep, in place. */
  method Sweep(nodes: seq<Node>, live: array<set<Reg>>, hl: set<Reg>, keep: array<bool>, ghost pcs: seq<(nat, nat)>)
    returns (changed: bool)
    requires keep.Length == |nodes| && live.Length == |nodes| + 2
    modifies live, keep
    ensures live[..] == SweepFrom(nodes, old(live[..]), hl, 0)
    ensures UnderAll(nodes, pcs, old(live[..])) && HandlersUnderAll(nodes, pcs, hl) ==> UnderAll(nodes, pcs, live[..])
    ensures changed <==> live[..] != old(live[..])
    ensures !changed ==> SolvedFrom(nodes, live[..], hl, keep[..], 0)
  {
    hide UnderAll, HandlersUnderAll, LiveIn, Dead, Out;
    var n := |nodes|;
    ghost var start := live[..];
    ghost var bounded := UnderAll(nodes, pcs, start) && HandlersUnderAll(nodes, pcs, hl);
    changed := false;
    for i := n downto 0
      invariant live[..] == SweepFrom(nodes, start, hl, i)
      invariant bounded ==> UnderAll(nodes, pcs, live[..])
      invariant changed ==> live[..] != start
      invariant !changed ==> live[..] == start && SolvedFrom(nodes, start, hl, keep[..], i)
    {
      var nd := nodes[i];
      var out := (if nd.s1 < n then live[nd.s1] else {}) + (if nd.s2 < n then live[nd.s2] else {});
      if nd.falls {
        out := out + live[i + 1];
      }
      if nd.throws {
        out := out + hl;
      }
      ghost var was, kept := live[..], keep[..];
      OutIs(nodes, was, hl, i);
      assert out == Out(nodes, was, hl, i);
      keep[i] := !Dead(nd, out);
      assert keep[..] == kept[i := !Dead(nd, out)];
      var li := LiveIn(nd, out);
      SweepOn(nodes, start, hl, i, was, li);
      if bounded {
        SweepStaysUnder(nodes, pcs, was, hl, i);
      }
      if li != live[i] {
        live[i] := li;
        changed := true;
      } else if !changed {
        SolvedAt(nodes, start, hl, kept, i);
      }
      assert live[..] == was[i := li];
    }
  }

  /** The next op of a sweep; where it finds something new, the sweep has changed something. */
  lemma SweepOn(nodes: seq<Node>, start: seq<set<Reg>>, hl: set<Reg>, i: nat, was: seq<set<Reg>>, li: set<Reg>)
    requires |start| == |nodes| + 2 && i < |nodes| && was == SweepFrom(nodes, start, hl, i + 1)
    requires li == LiveIn(nodes[i], Out(nodes, was, hl, i))
    ensures SweepFrom(nodes, start, hl, i) == was[i := li] && was[i] == start[i]
    ensures was != start || li != was[i] ==> was[i := li] != start
  {
    hide LiveIn, Out;
    if li != was[i] {
      assert was[i := li][i] != start[i];
    }
  }

  lemma OutIs(nodes: seq<Node>, live: seq<set<Reg>>, hl: set<Reg>, i: nat)
    requires i < |nodes| && |nodes| + 2 == |live|
    ensures var nd, n := nodes[i], |nodes|;
            Out(nodes, live, hl, i)
            == (if nd.s1 < n then live[nd.s1] else {}) + (if nd.s2 < n then live[nd.s2] else {})
               + (if nd.falls then live[i + 1] else {}) + (if nd.throws then hl else {})
  {
  }

  /** Sweeps backward until nothing changes, for at most 64 rounds. When it settles, the result is the least
      solution, and exactly its dead stores are dropped; when it does not, every op is kept. */
  method DeadStores(nodes: seq<Node>, pcs: seq<(nat, nat)>, keep: array<bool>) returns (r: Option<(seq<set<Reg>>, set<Reg>)>)
    requires keep.Length == |nodes|
    modifies keep
    ensures r.Some? <==> Settles(nodes, pcs)
    ensures r.Some? ==> Least(nodes, pcs, r.value.0) && KeepsLive(nodes, pcs, r.value.0, keep[..])
    ensures r.Some? ==> r.value.1 == HandlerLive(pcs, r.value.0, |nodes|)
    ensures r.None? ==> forall i :: 0 <= i < keep.Length ==> keep[i]
  {
    hide LiveIn, Dead, UnderAll, HandlersUnderAll, SweepFrom;
    var n := |nodes|;
    var live := new set<Reg>[n + 2](_ => {});
    assert live[..] == Rounds(nodes, pcs, 0);
    NothingUnderAll(nodes, pcs);
    for round := 0 to DSE_ROUNDS
      invariant live[..] == Rounds(nodes, pcs, round) && live[n] == {} && live[n + 1] == {}
      invariant forall k: nat :: k < round ==> !SettlesAt(nodes, pcs, k)
      invariant UnderAll(nodes, pcs, live[..])
    {
      var hl := HandlersLive(pcs, live, n);
      HandlersStayUnder(nodes, pcs, live[..]);
      ghost var was := live[..];
      var changed := Sweep(nodes, live, hl, keep, pcs);
      assert live[..] == Rounds(nodes, pcs, round + 1);
      BeyondStays(nodes, was, hl);
      if !changed {
        assert SettlesAt(nodes, pcs, round);
        return Some((live[..], hl));
      }
    }
    for i := 0 to n
      invariant forall j :: 0 <= j < i ==> keep[j]
    {
      keep[i] := true;
    }
    return None;
  }

  lemma NothingUnderAll(nodes: seq<Node>, pcs: seq<(nat, nat)>)
    ensures UnderAll(nodes, pcs, Rounds(nodes, pcs, 0))
  {
    hide HandlerLive;
  }

  lemma BeyondStays(nodes: seq<Node>, live: seq<set<Reg>>, hl: set<Reg>)
    requires |live| == |nodes| + 2
    ensures var r := SweepFrom(nodes, live, hl, 0); r[|nodes|] == live[|nodes|] && r[|nodes| + 1] == live[|nodes| + 1]
  {
    hide LiveIn, Out;
    var r, n := SweepFrom(nodes, live, hl, 0), |nodes|;
    assert r[n..][0] == live[n..][0] && r[n..][1] == live[n..][1];
  }
}
