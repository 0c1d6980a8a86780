/** Growing the blocks: every instruction of a function ends up in exactly one block, and wherever a
    block can send control, a block starts. */
module BlockPartition {
  import opened Basics
  import opened BlockSearch

  /** The members of a function and which of them start a block: those that are entered other than by
      running on from the one instruction before. */
  datatype Layout = Layout(members: seq<nat>, owner: seq<int>, leader: seq<bool>)

  /** The search is over, and its counts have been turned into leaders. */
  ghost predicate Marked(g: Graph, l: Layout, stamp: int, root: nat) {
    && g.Valid() && AllNodes(g, l.members) && Distinct(l.members) && |l.owner| == |l.leader| == |g.nodes| && root < |g.nodes|
    && (forall j: nat :: j < |g.nodes| ==> MarkedAt(g, l, stamp, root, j))
    && (forall k :: 0 <= k < |l.members| ==> Arrived(g, l.members, k, root))
  }

  ghost predicate MarkedAt(g: Graph, l: Layout, stamp: int, root: nat, j: nat)
    requires AllNodes(g, l.members) && j < |l.owner| == |l.leader|
  {
    && (l.owner[j] == stamp <==> j in l.members)
    && (j in l.members <==> j == root || CountFrom(g, l.members, j) > 0)
    && (j in l.members ==> (l.leader[j] <==> j == root || CountFrom(g, l.members, j) != 1 || ForcedFrom(g, l.members, j)))
  }

  method FindMembers(g: Graph, root: nat, stamp: int, owner0: seq<int>, preds0: seq<nat>, leader0: seq<bool>)
    returns (l: Layout)
    requires g.Valid() && root < |g.nodes| && |owner0| == |preds0| == |leader0| == |g.nodes|
    requires forall j: nat :: j < |g.nodes| ==> owner0[j] != stamp
    ensures Marked(g, l, stamp, root)
  {
    hide Edges, CountFrom, Take, ForcedFrom;
    var m := Marks(owner0[root := stamp], preds0[root := 0], leader0[root := true], [], [root]);
    StartSearching(g, m, stamp, root, owner0);
    while m.work != []
      invariant Searching(g, m, stamp, root)
      decreases |g.nodes| - |m.members|
    {
      TakeSearching(g, m, stamp, root);
      OneMore(g, m, stamp, root);
      m := Take(g, m, stamp);
    }
    var leader := m.leader;
    for k := 0 to |m.members|
      invariant |leader| == |g.nodes| && AllNodes(g, m.members) && Distinct(m.members)
      invariant forall j: nat :: j < |g.nodes| && j !in m.members[..k] ==> leader[j] == m.leader[j]
      invariant forall a :: 0 <= a < k ==> leader[m.members[a]] == (m.leader[m.members[a]] || m.preds[m.members[a]] != 1)
    {
      assert m.members[..k + 1] == m.members[..k] + [m.members[k]];
      if m.preds[m.members[k]] != 1 {
        leader := leader[m.members[k] := true];
      }
    }
    leader := leader[root := true];
    l := Layout(m.members, m.owner, leader);
    assert m.members[..|m.members|] == m.members;
    forall j: nat | j < |g.nodes| ensures MarkedAt(g, l, stamp, root, j) {
      assert Recorded(g, m, stamp, root, j);
      if j in m.members {
        var a :| 0 <= a < |m.members| && m.members[a] == j;
      }
    }
  }

  lemma StartSearching(g: Graph, m: Marks, stamp: int, root: nat, owner0: seq<int>)
    requires Sized(g, m) && root < |g.nodes| && m.members == [] && m.work == [root] && |owner0| == |g.nodes|
    requires m.owner == owner0[root := stamp] && (forall j: nat :: j < |g.nodes| ==> owner0[j] != stamp)
    requires m.preds[root] == 0 && m.leader[root]
    ensures Searching(g, m, stamp, root)
  {
    forall j: nat | j < |g.nodes| ensures Recorded(g, m, stamp, root, j) {
      assert CountFrom(g, m.members, j) == 0;
    }
  }

  /** There is always another member, and never more than there are instructions. */
  lemma OneMore(g: Graph, m: Marks, stamp: int, root: nat)
    requires g.Valid() && Searching(g, m, stamp, root) && m.work != []
    ensures |m.members| < |g.nodes| && |Take(g, m, stamp).members| == |m.members| + 1
  {
    var i := m.work[|m.work| - 1];
    assert i in m.work && i !in m.members;
    DistinctBound(m.members + [i], |g.nodes|);
  }

  // ----- Growing -----

  datatype Term = Next(pc: nat) | Leap(pc: nat) | Branch(target: nat, fall: nat) | Exit | Dynamic(next: Option<nat>) | Invalid

  /** The instruction that a block goes on with behind i, if it goes on. */
  function Onward(g: Graph, l: Layout, stamp: int, i: nat): Option<nat>
    requires i < |g.nodes| == |l.owner| == |l.leader| && g.Valid()
  {
    var n := g.nodes[i];
    if !n.ok || n.Ends() then None
    else
      match g.At(n.next)
      case Some(j) => if l.owner[j] == stamp && !l.leader[j] then Some(j) else None
      case None => None
  }

  /** How a block ends that ends with i. */
  function TermOf(g: Graph, i: nat): Term
    requires i < |g.nodes|
  {
    var n := g.nodes[i];
    if !n.ok then Invalid
    else if n.branch then (if n.target.Some? then Branch(n.target.value, n.next) else Invalid)
    else if !n.falls then (if n.dynamic then Dynamic(None) else Exit)
    else if n.dynamic then Dynamic(Some(n.next))
    else if n.jump then Leap(n.next)
    else if g.At(n.next).Some? then Next(n.next)
    else Invalid
  }

  function PosOf(s: seq<nat>, x: nat): (k: nat)
    requires x in s
    ensures k < |s| && s[k] == x
  {
    if s[0] == x then 0 else 1 + PosOf(s[1..], x)
  }

  /** A block only goes on with a member that was found later. */
  lemma OnwardRises(g: Graph, l: Layout, stamp: int, root: nat, a: nat)
    requires Marked(g, l, stamp, root) && a < |l.members| && Onward(g, l, stamp, l.members[a]).Some?
    ensures var j := Onward(g, l, stamp, l.members[a]).value;
            j in l.members && j < |g.nodes| && !l.leader[j] && PosOf(l.members, j) > a
  {
    hide CountFrom;
    var i := l.members[a];
    var j := Onward(g, l, stamp, i).value;
    assert MarkedAt(g, l, stamp, root, j);
    var b := PosOf(l.members, j);
    FallsTo(g, l, stamp, i);
    assert Arrived(g, l.members, b, root);
    var c := Earlier(g, l.members, b);
    CountOne(g, l.members, j, a, c);
  }

  lemma FallsTo(g: Graph, l: Layout, stamp: int, i: nat)
    requires g.Valid() && i < |g.nodes| == |l.owner| == |l.leader| && Onward(g, l, stamp, i).Some?
    ensures CountIn(Edges(g, i), Onward(g, l, stamp, i).value) > 0
  {
    var j := Onward(g, l, stamp, i).value;
    assert Edges(g, i)[0] == Edge(j, false);
    CountZero(Edges(g, i), j);
  }

  /** One of the members before the k-th leads to it. */
  lemma {:induction false} Earlier(g: Graph, members: seq<nat>, k: nat) returns (c: nat)
    requires AllNodes(g, members) && k < |members| && CountFrom(g, members[..k], members[k]) > 0
    ensures c < k && CountIn(Edges(g, members[c]), members[k]) > 0
  {
    c := SomeSource(g, members[..k], members[k]);
  }

  lemma {:induction false} SomeSource(g: Graph, members: seq<nat>, j: nat) returns (c: nat)
    requires AllNodes(g, members) && CountFrom(g, members, j) > 0
    ensures c < |members| && CountIn(Edges(g, members[c]), j) > 0
  {
    hide Edges;
    var n := |members| - 1;
    if CountIn(Edges(g, members[n]), j) > 0 {
      c := n;
    } else {
      c := SomeSource(g, members[..n], j);
    }
  }

  /** The block that grows from the a-th member. */
  ghost function Chain(g: Graph, l: Layout, stamp: int, root: nat, a: nat): (c: seq<nat>)
    requires Marked(g, l, stamp, root) && a < |l.members|
    ensures c != [] && c[0] == l.members[a] && AllNodes(g, c)
    decreases |l.members| - a
  {
    var i := l.members[a];
    match Onward(g, l, stamp, i)
    case None => [i]
    case Some(j) => OnwardRises(g, l, stamp, root, a); [i] + Chain(g, l, stamp, root, PosOf(l.members, j))
  }

  lemma ChainUnfolds(g: Graph, l: Layout, stamp: int, root: nat, a: nat)
    requires Marked(g, l, stamp, root) && a < |l.members|
    ensures var i := l.members[a];
            match Onward(g, l, stamp, i)
            case None => Chain(g, l, stamp, root, a) == [i]
            case Some(j) => j in l.members && PosOf(l.members, j) > a
                            && Chain(g, l, stamp, root, a) == [i] + Chain(g, l, stamp, root, PosOf(l.members, j))
  {
    if Onward(g, l, stamp, l.members[a]).Some? {
      OnwardRises(g, l, stamp, root, a);
    }
  }

  /** Grows one block. */
  method Grow(g: Graph, l: Layout, stamp: int, ghost root: nat, start: nat) returns (instrs: seq<nat>, term: Term)
    requires Marked(g, l, stamp, root) && start in l.members
    ensures instrs == Chain(g, l, stamp, root, PosOf(l.members, start)) && term == TermOf(g, instrs[|instrs| - 1])
  {
    hide Marked, Onward, Chain, TermOf;
    ghost var a := PosOf(l.members, start);
    MembersInside(g, l, stamp, root);
    var cur := start;
    instrs := [];
    while true
      invariant a < |l.members| && cur == l.members[a] && cur < |g.nodes|
      invariant instrs + Chain(g, l, stamp, root, a) == Chain(g, l, stamp, root, PosOf(l.members, start))
      decreases |l.members| - a
    {
      ghost var was := instrs;
      ChainUnfolds(g, l, stamp, root, a);
      instrs := instrs + [cur];
      match Onward(g, l, stamp, cur)
      case None =>
        return instrs, TermOf(g, cur);
      case Some(j) =>
        a := PosOf(l.members, j);
        OnwardInside(g, l, stamp, root, j);
        assert was + ([cur] + Chain(g, l, stamp, root, a)) == instrs + Chain(g, l, stamp, root, a);
        cur := j;
    }
  }

  lemma OnwardInside(g: Graph, l: Layout, stamp: int, root: nat, j: nat)
    requires Marked(g, l, stamp, root) && j in l.members
    ensures j < |g.nodes|
  {
  }

  lemma MembersInside(g: Graph, l: Layout, stamp: int, root: nat)
    requires Marked(g, l, stamp, root)
    ensures g.Valid() && AllNodes(g, l.members) && |l.owner| == |l.leader| == |g.nodes|
  {
  }

  // ----- Partition -----

  /** The member that a block starts with from which j is grown: j itself if it starts a block, and otherwise that of
      the one instruction that runs on to j. */
  lemma {:induction false} SomeBlock(g: Graph, l: Layout, stamp: int, root: nat, b: nat) returns (a: nat)
    requires Marked(g, l, stamp, root) && b < |l.members|
    ensures a <= b && l.leader[l.members[a]] && l.members[b] in Chain(g, l, stamp, root, a)
    decreases b
  {
    hide CountFrom;
    var j := l.members[b];
    assert MarkedAt(g, l, stamp, root, j) && Arrived(g, l.members, b, root);
    if l.leader[j] {
      a := b;
      assert Chain(g, l, stamp, root, a)[0] == j;
    } else {
      var c := Earlier(g, l.members, b);
      RunsOn(g, l, stamp, root, c, j);
      a := SomeBlock(g, l, stamp, root, c);
      ChainCloses(g, l, stamp, root, a, l.members[c], j);
    }
  }

  /** The only edge to an instruction that starts no block runs on from the one before. */
  lemma RunsOn(g: Graph, l: Layout, stamp: int, root: nat, c: nat, j: nat)
    requires Marked(g, l, stamp, root) && c < |l.members| && j in l.members && j < |g.nodes| && !l.leader[j]
    requires CountIn(Edges(g, l.members[c]), j) > 0
    ensures Onward(g, l, stamp, l.members[c]) == Some(j)
  {
    var i := l.members[c];
    assert MarkedAt(g, l, stamp, root, j) && !Forced(Edges(g, i), j);
    CountZero(Edges(g, i), j);
    AllInside(g, g.nodes[i].extra);
    var e :| e in Edges(g, i) && e.to == j;
    assert !e.forced;
  }

  lemma {:induction false} ChainCloses(g: Graph, l: Layout, stamp: int, root: nat, a: nat, i: nat, j: nat)
    requires Marked(g, l, stamp, root) && a < |l.members| && i in Chain(g, l, stamp, root, a)
    requires i < |g.nodes| && Onward(g, l, stamp, i) == Some(j)
    ensures j in Chain(g, l, stamp, root, a)
    decreases |l.members| - a
  {
    hide Onward, Marked;
    MembersInside(g, l, stamp, root);
    var head := l.members[a];
    if Onward(g, l, stamp, head).Some? {
      var k := Onward(g, l, stamp, head).value;
      OnwardRises(g, l, stamp, root, a);
      var b := PosOf(l.members, k);
      if i == head {
        assert Chain(g, l, stamp, root, b)[0] == j;
      } else {
        ChainCloses(g, l, stamp, root, b, i, j);
      }
    }
  }

  /** All but the first of a chain start no block, and are grown from the one before. */
  lemma {:induction false} ChainSteps(g: Graph, l: Layout, stamp: int, root: nat, a: nat, x: nat)
    requires Marked(g, l, stamp, root) && a < |l.members| && 0 < x < |Chain(g, l, stamp, root, a)|
    ensures var c := Chain(g, l, stamp, root, a);
            && Onward(g, l, stamp, c[x - 1]) == Some(c[x]) && c[x] in l.members && !l.leader[c[x]]
            && c[x - 1] in l.members && PosOf(l.members, c[x - 1]) < PosOf(l.members, c[x])
    decreases |l.members| - a
  {
    hide Onward, Marked;
    MembersInside(g, l, stamp, root);
    var head := l.members[a];
    var k := Onward(g, l, stamp, head).value;
    OnwardRises(g, l, stamp, root, a);
    PosUnique(l.members, a, PosOf(l.members, head), g, stamp, root, l);
    if x > 1 {
      ChainSteps(g, l, stamp, root, PosOf(l.members, k), x - 1);
    }
  }

  lemma PosUnique(s: seq<nat>, a: nat, b: nat, g: Graph, stamp: int, root: nat, l: Layout)
    requires Marked(g, l, stamp, root) && s == l.members && a < |s| && b < |s| && s[a] == s[b]
    ensures a == b
  {
  }

  /** No instruction is in two blocks, or twice in one. */
  lemma {:induction false} OneBlock(g: Graph, l: Layout, stamp: int, root: nat, a: nat, b: nat, x: nat, y: nat)
    requires Marked(g, l, stamp, root) && a < |l.members| && b < |l.members|
    requires l.leader[l.members[a]] && l.leader[l.members[b]]
    requires x < |Chain(g, l, stamp, root, a)| && y < |Chain(g, l, stamp, root, b)|
    requires Chain(g, l, stamp, root, a)[x] == Chain(g, l, stamp, root, b)[y]
    ensures a == b && x == y
    decreases x + y
  {
    hide Marked;
    MembersInside(g, l, stamp, root);
    var c, d := Chain(g, l, stamp, root, a), Chain(g, l, stamp, root, b);
    if x > 0 {
      ChainSteps(g, l, stamp, root, a, x);
    }
    if y > 0 {
      ChainSteps(g, l, stamp, root, b, y);
    }
    if x > 0 && y > 0 {
      SamePredecessor(g, l, stamp, root, c[x - 1], d[y - 1], c[x]);
      OneBlock(g, l, stamp, root, a, b, x - 1, y - 1);
    } else {
      PosUnique(l.members, a, b, g, stamp, root, l);
    }
  }

  lemma SamePredecessor(g: Graph, l: Layout, stamp: int, root: nat, i: nat, k: nat, j: nat)
    requires Marked(g, l, stamp, root) && i in l.members && k in l.members && i < |g.nodes| && k < |g.nodes|
    requires Onward(g, l, stamp, i) == Some(j) && Onward(g, l, stamp, k) == Some(j)
    ensures i == k
  {
    hide CountFrom;
    FallsTo(g, l, stamp, i);
    FallsTo(g, l, stamp, k);
    assert MarkedAt(g, l, stamp, root, j);
    CountOne(g, l.members, j, PosOf(l.members, i), PosOf(l.members, k));
  }

  // ----- Where blocks lead -----

  /** The code addresses that a terminator names. */
  function Named(t: Term): set<nat> {
    match t
    case Next(p) => {p}
    case Leap(p) => {p}
    case Branch(p, q) => {p, q}
    case Dynamic(Some(p)) => {p}
    case _ => {}
  }

  /** Behind a branch, control may also run on. */
  predicate BranchFalls(n: Node) {
    n.ok && n.branch && n.target.Some? ==> n.falls
  }

  /** Every instruction that is named when a block ends with the a-th member starts a block of the function. */
  ghost predicate NamedLead(g: Graph, l: Layout, stamp: int, root: nat, a: nat)
    requires Marked(g, l, stamp, root) && a < |l.members|
  {
    Onward(g, l, stamp, l.members[a]).None? ==>
      forall pc, j :: pc in Named(TermOf(g, l.members[a])) && g.At(pc) == Some(j) ==> j in l.members && l.leader[j]
  }

  lemma TargetsLead(g: Graph, l: Layout, stamp: int, root: nat, a: nat)
    requires Marked(g, l, stamp, root) && a < |l.members| && BranchFalls(g.nodes[l.members[a]])
    ensures NamedLead(g, l, stamp, root, a)
  {
    hide CountFrom, Edges, Marked;
    MembersInside(g, l, stamp, root);
    if Onward(g, l, stamp, l.members[a]).None? {
      forall pc, j | pc in Named(TermOf(g, l.members[a])) && g.At(pc) == Some(j) ensures j in l.members && l.leader[j] {
        TargetLeads(g, l, stamp, root, a, pc, j);
      }
    }
  }

  lemma TargetLeads(g: Graph, l: Layout, stamp: int, root: nat, a: nat, pc: nat, j: nat)
    requires Marked(g, l, stamp, root) && a < |l.members| && BranchFalls(g.nodes[l.members[a]])
    requires Onward(g, l, stamp, l.members[a]).None? && pc in Named(TermOf(g, l.members[a])) && g.At(pc) == Some(j)
    ensures j in l.members && l.leader[j]
  {
    hide CountFrom;
    var i := l.members[a];
    var n := g.nodes[i];
    var es := Edges(g, i);
    if n.falls && pc == n.next {
      assert es[0] == Edge(j, n.Ends());
    } else {
      assert n.target == Some(pc);
      assert Edge(j, true) in EdgeTo(g, pc, true);
    }
    var e :| e in es && e.to == j && (e.forced || !n.Ends());
    CountZero(es, j);
    CountSome(g, l.members, j, a);
    assert MarkedAt(g, l, stamp, root, j);
    if e.forced {
      assert Forced(es, j) && ForcedFrom(g, l.members, j);
    }
  }

  /** All that is known of an instruction but the addresses. */
  predicate SameFlags(n: Node, m: Node) {
    n.ok == m.ok && n.falls == m.falls && n.dynamic == m.dynamic && n.jump == m.jump && n.branch == m.branch
    && n.target.Some? == m.target.Some?
  }

  predicate MemberFlags(g: Graph, l: Layout, a: nat, n: Node) {
    a < |l.members| && l.members[a] < |g.nodes| && SameFlags(g.nodes[l.members[a]], n)
  }

  /** A branch behind which control does not run on, at address 0, with address 1 behind it. */
  function Lone(dynamic: bool, jump: bool): Graph {
    Graph([Node(true, false, dynamic, jump, true, 1, Some(0), []), Node(true, false, false, false, false, 2, None, [])], [Some(0), Some(1)])
  }

  /** Its terminator names address 1 all the same, where nothing of the function starts. */
  lemma LoneMayNotLead(dynamic: bool, jump: bool)
    ensures var g, l := Lone(dynamic, jump), Layout([0], [7, 0], [true, false]); Marked(g, l, 7, 0) && !NamedLead(g, l, 7, 0, 0)
  {
    var g, l := Lone(dynamic, jump), Layout([0], [7, 0], [true, false]);
    assert EdgesToAll(g, []) == [];
    assert Edges(g, 0) == [Edge(0, true)];
    assert [0][..0] == [];
    assert CountFrom(g, [], 1) == 0 && CountIn([Edge(0, true)][1..], 1) == 0;
    assert CountIn(Edges(g, 0), 1) == 0;
    assert CountFrom(g, [0], 1) == 0;
    forall j: nat | j < 2 ensures MarkedAt(g, l, 7, 0, j) {
    }
    assert TermOf(g, 0) == Branch(0, 1) && 1 in Named(TermOf(g, 0)) && g.At(1) == Some(1);
  }

  /** In every function of every program, what is named behind an instruction with these flags starts a block, if
      and only if it is no branch behind which control does not run on. */
  lemma NamedLeadExactly(n: Node)
    ensures (forall g, l, stamp, root, a: nat ::
               Marked(g, l, stamp, root) && MemberFlags(g, l, a, n) ==> NamedLead(g, l, stamp, root, a))
            <==> BranchFalls(n)
  {
    hide Marked, NamedLead;
    if BranchFalls(n) {
      forall g, l, stamp, root, a: nat | Marked(g, l, stamp, root) && MemberFlags(g, l, a, n)
        ensures NamedLead(g, l, stamp, root, a)
      {
        TargetsLead(g, l, stamp, root, a);
      }
    } else {
      LoneMayNotLead(n.dynamic, n.jump);
      assert MemberFlags(Lone(n.dynamic, n.jump), Layout([0], [7, 0], [true, false]), 0, n);
    }
  }

  datatype Block = Block(start: nat, instrs: seq<nat>, term: Term)

  /** The blocks of a function, as they are built. */
  ghost predicate Built(g: Graph, l: Layout, stamp: int, root: nat, blocks: seq<Block>) {
    && Marked(g, l, stamp, root) && (forall k :: 0 <= k < |blocks| ==> Grown(g, l, stamp, root, blocks[k]))
    && (forall k, m :: 0 <= k < m < |blocks| ==> blocks[k].start != blocks[m].start)
    && forall j :: j in l.members ==> InSomeBlock(blocks, j)
  }

  /** Builds the blocks of a function. Every member is in exactly one of them. */
  method BuildBlocks(g: Graph, l: Layout, stamp: int, ghost root: nat) returns (blocks: seq<Block>)
    requires Marked(g, l, stamp, root)
    ensures Built(g, l, stamp, root, blocks)
  {
    hide Marked, Chain, Grown, TermOf;
    MembersInside(g, l, stamp, root);
    blocks := [];
    ghost var origin: seq<nat> := [];
    for a := 0 to |l.members|
      invariant Starts(l, blocks, origin, a)
      invariant forall k :: 0 <= k < |blocks| ==> Grown(g, l, stamp, root, blocks[k])
    {
      if l.leader[l.members[a]] {
        var instrs, term := Grow(g, l, stamp, root, l.members[a]);
        NewBlock(g, l, stamp, root, l.members[a], instrs, term);
        StartsMore(l, blocks, origin, a, Block(l.members[a], instrs, term));
        blocks := blocks + [Block(l.members[a], instrs, term)];
        origin := origin + [a];
      }
    }
    forall k, m | 0 <= k < m < |blocks| ensures blocks[k].start != blocks[m].start {
      if blocks[k].start == blocks[m].start {
        PosUnique(l.members, origin[k], origin[m], g, stamp, root, l);
      }
    }
    forall j | j in l.members ensures InSomeBlock(blocks, j) {
      Covered(g, l, stamp, root, blocks, origin, j);
    }
  }

  /** One block for each leader among the first n members, in their order. */
  ghost predicate Starts(l: Layout, blocks: seq<Block>, origin: seq<nat>, n: nat)
    requires n <= |l.members| && forall k :: 0 <= k < |l.members| ==> l.members[k] < |l.leader|
  {
    && |origin| == |blocks|
    && (forall k :: 0 <= k < |blocks| ==> origin[k] < n && blocks[k].start == l.members[origin[k]])
    && (forall k, m :: 0 <= k < m < |blocks| ==> origin[k] < origin[m])
    && (forall b :: 0 <= b < n && l.leader[l.members[b]] ==> b in origin)
  }

  lemma StartsMore(l: Layout, blocks: seq<Block>, origin: seq<nat>, n: nat, b: Block)
    requires n < |l.members| && forall k :: 0 <= k < |l.members| ==> l.members[k] < |l.leader|
    requires Starts(l, blocks, origin, n) && b.start == l.members[n]
    ensures Starts(l, blocks + [b], origin + [n], n + 1)
  {
    assert (origin + [n])[|origin|] == n;
    forall c | 0 <= c < n + 1 && l.leader[l.members[c]] ensures c in origin + [n] {
    }
  }

  lemma NewBlock(g: Graph, l: Layout, stamp: int, root: nat, start: nat, instrs: seq<nat>, term: Term)
    requires Marked(g, l, stamp, root) && start in l.members && start < |l.leader| && l.leader[start]
    requires instrs == Chain(g, l, stamp, root, PosOf(l.members, start)) && term == TermOf(g, instrs[|instrs| - 1])
    ensures Grown(g, l, stamp, root, Block(start, instrs, term))
  {
    hide Marked, Chain;
  }

  lemma Covered(g: Graph, l: Layout, stamp: int, root: nat, blocks: seq<Block>, origin: seq<nat>, j: nat)
    requires Marked(g, l, stamp, root) && (forall k :: 0 <= k < |l.members| ==> l.members[k] < |l.leader|)
    requires Starts(l, blocks, origin, |l.members|) && (forall k :: 0 <= k < |blocks| ==> Grown(g, l, stamp, root, blocks[k]))
    requires j in l.members
    ensures InSomeBlock(blocks, j)
  {
    hide Marked, Chain, TermOf;
    MembersInside(g, l, stamp, root);
    var a := SomeBlock(g, l, stamp, root, PosOf(l.members, j));
    var k :| 0 <= k < |origin| && origin[k] == a;
    assert Grown(g, l, stamp, root, blocks[k]);
    PosUnique(l.members, a, PosOf(l.members, l.members[a]), g, stamp, root, l);
    assert j in blocks[k].instrs;
  }

  ghost predicate InSomeBlock(blocks: seq<Block>, j: nat) {
    exists k :: 0 <= k < |blocks| && j in blocks[k].instrs
  }

  ghost predicate Grown(g: Graph, l: Layout, stamp: int, root: nat, b: Block)
    requires Marked(g, l, stamp, root)
  {
    && b.start in l.members && b.start < |l.leader| && l.leader[b.start]
    && b.instrs == Chain(g, l, stamp, root, PosOf(l.members, b.start))
    && b.term == TermOf(g, b.instrs[|b.instrs| - 1])
  }

  /** Blocks are disjoint, and no instruction stands twice in one. */
  lemma BlocksDisjoint(g: Graph, l: Layout, stamp: int, root: nat, blocks: seq<Block>, k: nat, m: nat, x: nat, y: nat)
    requires Marked(g, l, stamp, root) && k < |blocks| && m < |blocks|
    requires Grown(g, l, stamp, root, blocks[k]) && Grown(g, l, stamp, root, blocks[m])
    requires x < |blocks[k].instrs| && y < |blocks[m].instrs| && blocks[k].instrs[x] == blocks[m].instrs[y]
    ensures blocks[k] == blocks[m] && x == y
  {
    hide Marked;
    OneBlock(g, l, stamp, root, PosOf(l.members, blocks[k].start), PosOf(l.members, blocks[m].start), x, y);
  }
}
