/** Basic blocks of one function: the instructions reachable from its entry are found, those at which a
    block must start are marked, and from each of them a block grows until the next. */
module BlockSearch {
  import opened Basics

  /** What the block builder knows of an instruction. */
  datatype Node = Node(ok: bool, falls: bool, dynamic: bool, jump: bool, branch: bool, next: nat, target: Option<nat>, extra: seq<nat>) {
    /** Control cannot simply run on behind it. */
    predicate Ends() {
      branch || !falls || dynamic || jump
    }
  }

  /** The instructions, and which of them starts at a code address. */
  datatype Graph = Graph(nodes: seq<Node>, index: seq<Option<nat>>) {
    predicate Valid() {
      forall p :: 0 <= p < |index| && index[p].Some? ==> index[p].value < |nodes|
    }

    function At(pc: nat): Option<nat> {
      if pc < |index| then index[pc] else None
    }
  }

  /** An edge of control flow; a forced one starts a block where it arrives. */
  datatype Edge = Edge(to: nat, forced: bool)

  function EdgeTo(g: Graph, pc: nat, forced: bool): seq<Edge> {
    match g.At(pc)
    case Some(j) => [Edge(j, forced)]
    case None => []
  }

  function EdgesToAll(g: Graph, pcs: seq<nat>): seq<Edge> {
    if pcs == [] then [] else EdgeTo(g, pcs[0], true) + EdgesToAll(g, pcs[1..])
  }

  /** The edges that leave i, in the order in which they are visited. */
  function Edges(g: Graph, i: nat): seq<Edge>
    requires i < |g.nodes|
  {
    var n := g.nodes[i];
    if !n.ok then []
    else
      (if n.falls then EdgeTo(g, n.next, n.Ends()) else [])
      + (if n.target.Some? then EdgeTo(g, n.target.value, true) else [])
      + EdgesToAll(g, n.extra)
  }

  lemma {:induction false} EdgesInside(g: Graph, i: nat)
    requires g.Valid() && i < |g.nodes|
    ensures forall e :: e in Edges(g, i) ==> e.to < |g.nodes|
  {
    AllInside(g, g.nodes[i].extra);
  }

  lemma {:induction false} AllInside(g: Graph, pcs: seq<nat>)
    requires g.Valid()
    ensures forall e :: e in EdgesToAll(g, pcs) ==> e.to < |g.nodes| && e.forced
  {
    if pcs != [] {
      AllInside(g, pcs[1..]);
    }
  }

  // ----- Counting edges -----

  function CountIn(es: seq<Edge>, j: nat): nat {
    if es == [] then 0 else (if es[0].to == j then 1 else 0) + CountIn(es[1..], j)
  }

  /** How many edges lead from the members to j. */
  function CountFrom(g: Graph, members: seq<nat>, j: nat): nat
    requires forall k :: 0 <= k < |members| ==> members[k] < |g.nodes|
  {
    if members == [] then 0
    else CountFrom(g, members[..|members| - 1], j) + CountIn(Edges(g, members[|members| - 1]), j)
  }

  lemma {:induction false} CountZero(es: seq<Edge>, j: nat)
    ensures CountIn(es, j) == 0 <==> forall e :: e in es ==> e.to != j
  {
    if es != [] {
      CountZero(es[1..], j);
      assert es == [es[0]] + es[1..];
    }
  }

  /** If only one edge of them all leads to j, it leaves one member, and is the only one of its kind there. */
  lemma {:induction false} CountOne(g: Graph, members: seq<nat>, j: nat, a: nat, b: nat)
    requires forall k :: 0 <= k < |members| ==> members[k] < |g.nodes|
    requires CountFrom(g, members, j) == 1 && a < |members| && b < |members|
    requires CountIn(Edges(g, members[a]), j) > 0 && CountIn(Edges(g, members[b]), j) > 0
    ensures a == b && CountIn(Edges(g, members[a]), j) == 1
  {
    hide Edges;
    var n := |members| - 1;
    CountSome(g, members, j, a);
    CountSome(g, members, j, b);
    if a < n && b < n {
      CountSome(g, members[..n], j, a);
      CountOne(g, members[..n], j, a, b);
    } else if a < n {
      CountSome(g, members[..n], j, a);
    } else if b < n {
      CountSome(g, members[..n], j, b);
    }
  }

  lemma {:induction false} CountSome(g: Graph, members: seq<nat>, j: nat, a: nat)
    requires forall k :: 0 <= k < |members| ==> members[k] < |g.nodes|
    requires a < |members|
    ensures CountFrom(g, members, j) >= CountIn(Edges(g, members[a]), j)
  {
    hide Edges;
    var n := |members| - 1;
    if a < n {
      CountSome(g, members[..n], j, a);
    }
  }

  // ----- Finding the members -----

  /** Of every instruction: whether it was seen in this function (by the function's stamp), how often it
      was arrived at, and whether a block starts there. What other functions left behind is void. */
  datatype Marks = Marks(owner: seq<int>, preds: seq<nat>, leader: seq<bool>, members: seq<nat>, work: seq<nat>)

  ghost predicate Sized(g: Graph, m: Marks) {
    |m.owner| == |m.preds| == |m.leader| == |g.nodes|
  }

  function Visit(m: Marks, stamp: int, e: Edge): (r: Marks)
    requires e.to < |m.owner| == |m.preds| == |m.leader|
    ensures |r.owner| == |r.preds| == |r.leader| == |m.owner| && r.members == m.members
  {
    var j := e.to;
    if m.owner[j] != stamp then
      Marks(m.owner[j := stamp], m.preds[j := 1], m.leader[j := e.forced], m.members, m.work + [j])
    else
      Marks(m.owner, m.preds[j := m.preds[j] + 1], if e.forced then m.leader[j := true] else m.leader, m.members, m.work)
  }

  function VisitAll(m: Marks, stamp: int, es: seq<Edge>): (r: Marks)
    requires |m.owner| == |m.preds| == |m.leader| && forall e :: e in es ==> e.to < |m.owner|
    ensures |r.owner| == |r.preds| == |r.leader| == |m.owner| && r.members == m.members
    decreases |es|
  {
    if es == [] then m else VisitAll(Visit(m, stamp, es[0]), stamp, es[1..])
  }

  /** What visiting some edges adds up to, of one instruction. */
  ghost predicate VisitedBy(m: Marks, r: Marks, stamp: int, es: seq<Edge>, j: nat)
    requires j < |m.owner| == |m.preds| == |m.leader| && j < |r.owner| == |r.preds| == |r.leader|
  {
    var seen := m.owner[j] == stamp;
    && (r.owner[j] == stamp <==> seen || CountIn(es, j) > 0)
    && (r.owner[j] == stamp ==>
          && r.preds[j] == (if seen then m.preds[j] else 0) + CountIn(es, j)
          && (r.leader[j] <==> (seen && m.leader[j]) || Forced(es, j)))
    && (j in r.work <==> j in m.work || (!seen && CountIn(es, j) > 0))
  }

  predicate Forced(es: seq<Edge>, j: nat) {
    exists e :: e in es && e.to == j && e.forced
  }

  lemma {:induction false} VisitsAddUp(m: Marks, stamp: int, es: seq<Edge>)
    requires |m.owner| == |m.preds| == |m.leader| && forall e :: e in es ==> e.to < |m.owner|
    requires Distinct(m.work) && forall k :: 0 <= k < |m.work| ==> m.work[k] < |m.owner| && m.owner[m.work[k]] == stamp
    ensures var r := VisitAll(m, stamp, es);
            && Distinct(r.work) && (forall k :: 0 <= k < |r.work| ==> r.work[k] < |m.owner| && r.owner[r.work[k]] == stamp)
            && forall j: nat :: j < |m.owner| ==> VisitedBy(m, r, stamp, es, j)
    decreases |es|
  {
    if es != [] {
      var one := Visit(m, stamp, es[0]);
      VisitsAddUp(one, stamp, es[1..]);
      var r := VisitAll(m, stamp, es);
      forall j: nat | j < |m.owner| ensures VisitedBy(m, r, stamp, es, j) {
        assert VisitedBy(one, r, stamp, es[1..], j);
        assert es == [es[0]] + es[1..];
        assert Forced(es, j) <==> (es[0].to == j && es[0].forced) || Forced(es[1..], j);
      }
    }
  }

  // ----- The search -----

  ghost predicate AllNodes(g: Graph, s: seq<nat>) {
    forall k :: 0 <= k < |s| ==> s[k] < |g.nodes|
  }

  ghost predicate ForcedFrom(g: Graph, members: seq<nat>, j: nat)
    requires AllNodes(g, members)
  {
    exists k :: 0 <= k < |members| && Forced(Edges(g, members[k]), j)
  }

  /** The k-th member was arrived at from a member before it, unless it is the root. */
  ghost predicate Arrived(g: Graph, members: seq<nat>, k: nat, root: nat)
    requires AllNodes(g, members) && k < |members|
  {
    members[k] == root || CountFrom(g, members[..k], members[k]) > 0
  }

  /** What is recorded of j counts the edges from the members found so far. */
  ghost predicate Recorded(g: Graph, m: Marks, stamp: int, root: nat, j: nat)
    requires Sized(g, m) && AllNodes(g, m.members) && j < |g.nodes|
  {
    && (m.owner[j] == stamp <==> j in m.members || j in m.work)
    && (m.owner[j] == stamp <==> j == root || CountFrom(g, m.members, j) > 0)
    && (m.owner[j] == stamp ==>
          m.preds[j] == CountFrom(g, m.members, j) && (m.leader[j] <==> j == root || ForcedFrom(g, m.members, j)))
  }

  ghost predicate Searching(g: Graph, m: Marks, stamp: int, root: nat) {
    && Sized(g, m) && AllNodes(g, m.members) && AllNodes(g, m.work) && root < |g.nodes|
    && Distinct(m.members) && Distinct(m.work) && (forall j :: j in m.members ==> j !in m.work)
    && (forall j: nat :: j < |g.nodes| ==> Recorded(g, m, stamp, root, j))
    && (forall k :: 0 <= k < |m.members| ==> Arrived(g, m.members, k, root))
  }

  /** The instruction on top of the stack becomes a member and its edges are visited. */
  function Take(g: Graph, m: Marks, stamp: int): (r: Marks)
    requires g.Valid() && m.work != [] && |m.owner| == |m.preds| == |m.leader| == |g.nodes| && m.work[|m.work| - 1] < |g.nodes|
    ensures |r.owner| == |r.preds| == |r.leader| == |g.nodes|
  {
    var n := |m.work| - 1;
    EdgesInside(g, m.work[n]);
    VisitAll(Marks(m.owner, m.preds, m.leader, m.members + [m.work[n]], m.work[..n]), stamp, Edges(g, m.work[n]))
  }

  lemma TakeSearching(g: Graph, m: Marks, stamp: int, root: nat)
    requires g.Valid() && Searching(g, m, stamp, root) && m.work != []
    ensures m.work[|m.work| - 1] < |g.nodes| && Searching(g, Take(g, m, stamp), stamp, root)
  {
    hide Edges, CountIn;
    var n := |m.work| - 1;
    var i, r := m.work[n], Take(g, m, stamp);
    EdgesInside(g, i);
    var popped := Marks(m.owner, m.preds, m.leader, m.members + [i], m.work[..n]);
    assert m.work == popped.work + [i];
    PoppedOwned(g, m, stamp, root);
    VisitsAddUp(popped, stamp, Edges(g, i));
    assert popped.members[..|m.members|] == m.members;
    assert i in m.work;
    DistinctMore(m.members, i);
    assert AllNodes(g, r.members) && AllNodes(g, r.work);
    forall j: nat | j < |g.nodes| ensures Recorded(g, r, stamp, root, j) {
      RecordedOn(g, m, popped, r, stamp, root, j);
    }
    forall k | 0 <= k < |r.members| ensures Arrived(g, r.members, k, root) {
      if k < |m.members| {
        assert Arrived(g, m.members, k, root) && r.members[..k] == m.members[..k];
      } else {
        assert Recorded(g, m, stamp, root, i);
      }
    }
    forall j | j in r.members ensures j !in r.work {
      assert Recorded(g, m, stamp, root, j) && VisitedBy(popped, r, stamp, Edges(g, i), j);
    }
  }

  lemma PoppedOwned(g: Graph, m: Marks, stamp: int, root: nat)
    requires Searching(g, m, stamp, root) && m.work != []
    ensures forall k :: 0 <= k < |m.work| ==> m.work[k] < |m.owner| && m.owner[m.work[k]] == stamp
  {
    forall k | 0 <= k < |m.work| ensures m.work[k] < |m.owner| && m.owner[m.work[k]] == stamp {
      assert Recorded(g, m, stamp, root, m.work[k]);
    }
  }

  lemma RecordedOn(g: Graph, m: Marks, popped: Marks, r: Marks, stamp: int, root: nat, j: nat)
    requires Searching(g, m, stamp, root) && m.work != [] && j < |g.nodes|
    requires popped == Marks(m.owner, m.preds, m.leader, m.members + [m.work[|m.work| - 1]], m.work[..|m.work| - 1])
    requires Sized(g, r) && r.members == popped.members && VisitedBy(popped, r, stamp, Edges(g, m.work[|m.work| - 1]), j)
    ensures Recorded(g, r, stamp, root, j)
  {
    hide Edges, CountIn;
    var i := m.work[|m.work| - 1];
    assert Recorded(g, m, stamp, root, j);
    assert popped.members[..|m.members|] == m.members;
    assert j in m.work <==> j in popped.work || j == i;
    assert ForcedFrom(g, r.members, j) <==> ForcedFrom(g, m.members, j) || Forced(Edges(g, i), j) by {
      if ForcedFrom(g, m.members, j) {
        var k :| 0 <= k < |m.members| && Forced(Edges(g, m.members[k]), j);
        assert Forced(Edges(g, r.members[k]), j);
      }
      assert r.members[|m.members|] == i;
    }
    if CountFrom(g, m.members, j) == 0 && ForcedFrom(g, m.members, j) {
      NoForced(g, m.members, j);
    }
  }

  lemma {:induction false} NoForced(g: Graph, members: seq<nat>, j: nat)
    requires AllNodes(g, members) && CountFrom(g, members, j) == 0
    ensures !ForcedFrom(g, members, j)
  {
    forall k | 0 <= k < |members| ensures !Forced(Edges(g, members[k]), j) {
      CountSome(g, members, j, k);
      CountZero(Edges(g, members[k]), j);
    }
  }
}
