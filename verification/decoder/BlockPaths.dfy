/** Instruction paths and block paths are the same: a path along the edges of control flow is cut wherever
    a block starts, in one way only, and blocks that are linked spell out paths. */
module BlockPaths {
  import opened Basics
  import opened BlockSearch
  import opened BlockPartition

  /** Some edge leads from i to j. */
  predicate Linked(g: Graph, i: nat, j: nat) {
    i < |g.nodes| && CountIn(Edges(g, i), j) > 0
  }

  ghost predicate EdgePath(g: Graph, p: seq<nat>) {
    forall k :: 0 <= k < |p| - 1 ==> Linked(g, p[k], p[k + 1])
  }

  // ----- Cuts -----

  /** So many of the first instructions of a block. */
  datatype Piece = Piece(k: nat, x: nat) {
    predicate Fits(blocks: seq<Block>) {
      k < |blocks| && 0 < x <= |blocks[k].instrs|
    }

    function Last(blocks: seq<Block>): nat
      requires Fits(blocks)
    {
      blocks[k].instrs[x - 1]
    }
  }

  ghost predicate AllFit(blocks: seq<Block>, cuts: seq<Piece>) {
    forall c :: 0 <= c < |cuts| ==> cuts[c].Fits(blocks)
  }

  /** Every piece leads to the start of the block of the next. */
  ghost predicate BlockPath(g: Graph, blocks: seq<Block>, cuts: seq<Piece>) {
    && AllFit(blocks, cuts)
    && forall c :: 0 <= c < |cuts| - 1 ==> Linked(g, cuts[c].Last(blocks), blocks[cuts[c + 1].k].start)
  }

  function Spell(blocks: seq<Block>, cuts: seq<Piece>): seq<nat>
    requires forall c :: 0 <= c < |cuts| ==> cuts[c].Fits(blocks)
  {
    if cuts == [] then []
    else
      assert cuts[|cuts| - 1].Fits(blocks);
      Spell(blocks, cuts[..|cuts| - 1]) + blocks[cuts[|cuts| - 1].k].instrs[..cuts[|cuts| - 1].x]
  }

  // ----- Blocks -----

  lemma BlockFacts(g: Graph, l: Layout, stamp: int, root: nat, blocks: seq<Block>, k: nat)
    requires Built(g, l, stamp, root, blocks) && k < |blocks|
    ensures blocks[k].instrs != [] && blocks[k].instrs[0] == blocks[k].start && blocks[k].start in l.members
    ensures blocks[k].start < |l.leader| && l.leader[blocks[k].start]
    ensures blocks[k].instrs == Chain(g, l, stamp, root, PosOf(l.members, blocks[k].start))
  {
    hide Marked, Chain;
    assert Grown(g, l, stamp, root, blocks[k]);
  }

  /** Behind the last of a chain it does not go on. */
  lemma {:induction false} ChainEnds(g: Graph, l: Layout, stamp: int, root: nat, a: nat)
    requires Marked(g, l, stamp, root) && a < |l.members|
    ensures var c := Chain(g, l, stamp, root, a); c[|c| - 1] < |g.nodes| && Onward(g, l, stamp, c[|c| - 1]).None?
    decreases |l.members| - a
  {
    hide Onward, Marked;
    MembersInside(g, l, stamp, root);
    ChainUnfolds(g, l, stamp, root, a);
    if Onward(g, l, stamp, l.members[a]).Some? {
      OnwardRises(g, l, stamp, root, a);
      ChainEnds(g, l, stamp, root, PosOf(l.members, Onward(g, l, stamp, l.members[a]).value));
    }
  }

  /** A block goes on from its x-th instruction to the next, and not from its last. */
  lemma BlockSteps(g: Graph, l: Layout, stamp: int, root: nat, blocks: seq<Block>, k: nat, x: nat)
    requires Built(g, l, stamp, root, blocks) && k < |blocks| && 0 < x <= |blocks[k].instrs|
    ensures |g.nodes| == |l.owner| == |l.leader| && g.Valid()
    ensures var c := blocks[k].instrs;
            && c[x - 1] < |g.nodes| && c[x - 1] in l.members
            && Onward(g, l, stamp, c[x - 1]) == (if x < |c| then Some(c[x]) else None)
            && (x < |c| ==> c[x] in l.members && c[x] < |l.leader| && !l.leader[c[x]])
  {
    hide Onward, Marked, Chain;
    MembersInside(g, l, stamp, root);
    BlockFacts(g, l, stamp, root, blocks, k);
    var a := PosOf(l.members, blocks[k].start);
    if x < |blocks[k].instrs| {
      ChainSteps(g, l, stamp, root, a, x);
      OnwardInside(g, l, stamp, root, blocks[k].instrs[x]);
      OnwardInside(g, l, stamp, root, blocks[k].instrs[x - 1]);
    } else {
      ChainEnds(g, l, stamp, root, a);
      if x > 1 {
        ChainSteps(g, l, stamp, root, a, x - 1);
        OnwardInside(g, l, stamp, root, blocks[k].instrs[x - 1]);
      }
    }
  }

  lemma OnwardLinks(g: Graph, l: Layout, stamp: int, i: nat)
    requires g.Valid() && i < |g.nodes| == |l.owner| == |l.leader| && Onward(g, l, stamp, i).Some?
    ensures Linked(g, i, Onward(g, l, stamp, i).value)
  {
    hide Edges, Onward;
    FallsTo(g, l, stamp, i);
  }

  lemma LinkedMember(g: Graph, l: Layout, stamp: int, root: nat, i: nat, j: nat)
    requires Marked(g, l, stamp, root) && i in l.members && Linked(g, i, j)
    ensures j < |g.nodes| && j in l.members
  {
    hide Edges, CountFrom;
    EdgesInside(g, i);
    CountZero(Edges(g, i), j);
    CountSome(g, l.members, j, PosOf(l.members, i));
    assert MarkedAt(g, l, stamp, root, j);
  }

  /** Where a block starts, there is one. */
  lemma BlockAt(g: Graph, l: Layout, stamp: int, root: nat, blocks: seq<Block>, j: nat) returns (k: nat)
    requires Built(g, l, stamp, root, blocks) && j in l.members && j < |l.leader| && l.leader[j]
    ensures k < |blocks| && blocks[k].start == j && blocks[k].instrs != []
  {
    hide Marked, Grown;
    assert InSomeBlock(blocks, j);
    k :| 0 <= k < |blocks| && j in blocks[k].instrs;
    var y :| 0 <= y < |blocks[k].instrs| && blocks[k].instrs[y] == j;
    BlockFacts(g, l, stamp, root, blocks, k);
    if y > 0 {
      BlockSteps(g, l, stamp, root, blocks, k, y);
    }
  }

  // ----- From paths to blocks -----

  lemma SpellEnds(blocks: seq<Block>, cuts: seq<Piece>)
    requires AllFit(blocks, cuts) && cuts != []
    ensures Spell(blocks, cuts) != [] && Spell(blocks, cuts)[|Spell(blocks, cuts)| - 1] == cuts[|cuts| - 1].Last(blocks)
  {
  }

  lemma {:induction false} SpellStarts(blocks: seq<Block>, cuts: seq<Piece>)
    requires AllFit(blocks, cuts) && cuts != []
    ensures Spell(blocks, cuts) != [] && Spell(blocks, cuts)[0] == blocks[cuts[0].k].instrs[0]
  {
    if |cuts| > 1 {
      SpellStarts(blocks, cuts[..|cuts| - 1]);
    }
  }

  lemma SpellMore(blocks: seq<Block>, cuts: seq<Piece>, piece: Piece)
    requires AllFit(blocks, cuts) && piece.Fits(blocks)
    ensures AllFit(blocks, cuts + [piece]) && Spell(blocks, cuts + [piece]) == Spell(blocks, cuts) + blocks[piece.k].instrs[..piece.x]
  {
    assert (cuts + [piece])[..|cuts|] == cuts;
  }

  lemma PathMore(g: Graph, blocks: seq<Block>, cuts: seq<Piece>, piece: Piece)
    requires BlockPath(g, blocks, cuts) && piece.Fits(blocks)
    requires cuts != [] ==> Linked(g, cuts[|cuts| - 1].Last(blocks), blocks[piece.k].start)
    ensures BlockPath(g, blocks, cuts + [piece])
  {
    hide Linked, Piece.Last;
    var more := cuts + [piece];
    assert AllFit(blocks, more);
    forall c | 0 <= c < |more| - 1 ensures Linked(g, more[c].Last(blocks), blocks[more[c + 1].k].start) {
      if c < |cuts| - 1 {
        assert Linked(g, cuts[c].Last(blocks), blocks[cuts[c + 1].k].start);
        assert more[c] == cuts[c] && more[c + 1] == cuts[c + 1];
      }
    }
  }

  lemma FewerPieces(g: Graph, blocks: seq<Block>, cuts: seq<Piece>)
    requires BlockPath(g, blocks, cuts) && cuts != []
    ensures BlockPath(g, blocks, cuts[..|cuts| - 1])
  {
    hide Linked, Piece.Last;
    var fewer := cuts[..|cuts| - 1];
    assert AllFit(blocks, fewer);
    forall c | 0 <= c < |fewer| - 1 ensures Linked(g, fewer[c].Last(blocks), blocks[fewer[c + 1].k].start) {
      assert Linked(g, cuts[c].Last(blocks), blocks[cuts[c + 1].k].start);
    }
  }

  /** The last piece takes in one more instruction. */
  lemma PieceGrows(g: Graph, blocks: seq<Block>, cuts: seq<Piece>)
    requires BlockPath(g, blocks, cuts) && cuts != [] && cuts[|cuts| - 1].x < |blocks[cuts[|cuts| - 1].k].instrs|
    ensures var last := cuts[|cuts| - 1];
            var more := cuts[..|cuts| - 1] + [Piece(last.k, last.x + 1)];
            BlockPath(g, blocks, more) && Spell(blocks, more) == Spell(blocks, cuts) + [blocks[last.k].instrs[last.x]]
  {
    hide Linked, Spell;
    var n := |cuts| - 1;
    var last := cuts[n];
    var instrs := blocks[last.k].instrs;
    FewerPieces(g, blocks, cuts);
    if n > 0 {
      assert Linked(g, cuts[n - 1].Last(blocks), blocks[cuts[n - 1 + 1].k].start);
    }
    PathMore(g, blocks, cuts[..n], Piece(last.k, last.x + 1));
    SpellMore(blocks, cuts[..n], last);
    SpellMore(blocks, cuts[..n], Piece(last.k, last.x + 1));
    assert cuts == cuts[..n] + [last];
    assert instrs[..last.x + 1] == instrs[..last.x] + [instrs[last.x]];
  }

  /** Another piece begins. */
  lemma PieceStarts(g: Graph, blocks: seq<Block>, cuts: seq<Piece>, k: nat)
    requires BlockPath(g, blocks, cuts) && k < |blocks| && blocks[k].instrs != [] && blocks[k].instrs[0] == blocks[k].start
    requires cuts != [] ==> Linked(g, cuts[|cuts| - 1].Last(blocks), blocks[k].start)
    ensures var more := cuts + [Piece(k, 1)]; BlockPath(g, blocks, more) && Spell(blocks, more) == Spell(blocks, cuts) + [blocks[k].start]
  {
    hide Linked, Spell, BlockPath;
    PiecesFit(g, blocks, cuts);
    PathMore(g, blocks, cuts, Piece(k, 1));
    SpellMore(blocks, cuts, Piece(k, 1));
    assert blocks[k].instrs[..1] == [blocks[k].start];
  }

  lemma PiecesFit(g: Graph, blocks: seq<Block>, cuts: seq<Piece>)
    requires BlockPath(g, blocks, cuts)
    ensures AllFit(blocks, cuts)
  {
  }

  /** One more instruction is taken in by the last piece, unless a block starts with it. */
  lemma CutMore(g: Graph, l: Layout, stamp: int, root: nat, blocks: seq<Block>, fewer: seq<Piece>, j: nat) returns (cuts: seq<Piece>)
    requires Built(g, l, stamp, root, blocks) && BlockPath(g, blocks, fewer) && fewer != []
    requires fewer[|fewer| - 1].Last(blocks) in l.members && Linked(g, fewer[|fewer| - 1].Last(blocks), j)
    ensures BlockPath(g, blocks, cuts) && Spell(blocks, cuts) == Spell(blocks, fewer) + [j] && j in l.members
  {
    hide Marked, Grown, Linked, Onward, Spell;
    MembersInside(g, l, stamp, root);
    var last := fewer[|fewer| - 1];
    LinkedMember(g, l, stamp, root, last.Last(blocks), j);
    if l.leader[j] {
      var k := BlockAt(g, l, stamp, root, blocks, j);
      BlockFacts(g, l, stamp, root, blocks, k);
      PieceStarts(g, blocks, fewer, k);
      cuts := fewer + [Piece(k, 1)];
    } else {
      LinkRunsOn(g, l, stamp, root, last.Last(blocks), j);
      BlockSteps(g, l, stamp, root, blocks, last.k, last.x);
      PieceGrows(g, blocks, fewer);
      cuts := fewer[..|fewer| - 1] + [Piece(last.k, last.x + 1)];
    }
  }

  /** Every path from an instruction at which a block starts can be cut. */
  lemma {:induction false} CutExists(g: Graph, l: Layout, stamp: int, root: nat, blocks: seq<Block>, p: seq<nat>) returns (cuts: seq<Piece>)
    requires Built(g, l, stamp, root, blocks) && EdgePath(g, p) && p != []
    requires p[0] in l.members && p[0] < |l.leader| && l.leader[p[0]]
    ensures BlockPath(g, blocks, cuts) && Spell(blocks, cuts) == p && p[|p| - 1] in l.members
  {
    hide Marked, Grown, Linked, Onward;
    var n := |p| - 1;
    if n == 0 {
      var k := BlockAt(g, l, stamp, root, blocks, p[0]);
      BlockFacts(g, l, stamp, root, blocks, k);
      PieceStarts(g, blocks, [], k);
      cuts := [Piece(k, 1)];
      assert [] + cuts == cuts && [] + [p[0]] == p;
    } else {
      assert Linked(g, p[n - 1], p[n - 1 + 1]);
      ShorterPath(g, p);
      var fewer := CutExists(g, l, stamp, root, blocks, p[..n]);
      assert p == p[..n] + [p[n]] && p[..n][n - 1] == p[n - 1];
      SpellEnds(blocks, fewer);
      cuts := CutMore(g, l, stamp, root, blocks, fewer, p[n]);
    }
  }

  lemma LinkRunsOn(g: Graph, l: Layout, stamp: int, root: nat, i: nat, j: nat)
    requires Marked(g, l, stamp, root) && i in l.members && j in l.members && j < |g.nodes| && !l.leader[j] && Linked(g, i, j)
    ensures |g.nodes| == |l.owner| == |l.leader| && g.Valid() && Onward(g, l, stamp, i) == Some(j)
  {
    hide Onward, Edges, CountIn;
    RunsOn(g, l, stamp, root, PosOf(l.members, i), j);
  }

  lemma ShorterPath(g: Graph, p: seq<nat>)
    requires EdgePath(g, p) && p != []
    ensures EdgePath(g, p[..|p| - 1])
  {
    hide Linked;
    var q := p[..|p| - 1];
    forall k | 0 <= k < |q| - 1 ensures Linked(g, q[k], q[k + 1]) {
      assert Linked(g, p[k], p[k + 1]);
    }
  }

  /** And in one way only. */
  lemma {:induction false} CutUnique(g: Graph, l: Layout, stamp: int, root: nat, blocks: seq<Block>, cuts: seq<Piece>, other: seq<Piece>)
    requires Built(g, l, stamp, root, blocks) && AllFit(blocks, cuts) && AllFit(blocks, other)
    requires Spell(blocks, cuts) == Spell(blocks, other)
    ensures cuts == other
    decreases |cuts|
  {
    hide Marked, Grown;
    if cuts != [] && other != [] {
      SpellEnds(blocks, cuts);
      SpellEnds(blocks, other);
      var m, n := |cuts| - 1, |other| - 1;
      assert Grown(g, l, stamp, root, blocks[cuts[m].k]) && Grown(g, l, stamp, root, blocks[other[n].k]);
      BlocksDisjoint(g, l, stamp, root, blocks, cuts[m].k, other[n].k, cuts[m].x - 1, other[n].x - 1);
      assert cuts[m] == other[n];
      var tail := blocks[cuts[m].k].instrs[..cuts[m].x];
      TailsOff(Spell(blocks, cuts[..m]), Spell(blocks, other[..n]), tail);
      CutUnique(g, l, stamp, root, blocks, cuts[..m], other[..n]);
      assert cuts == cuts[..m] + [cuts[m]] && other == other[..n] + [other[n]];
    } else if cuts != [] {
      SpellEnds(blocks, cuts);
    } else if other != [] {
      SpellEnds(blocks, other);
    }
  }

  lemma TailsOff(a: seq<nat>, b: seq<nat>, tail: seq<nat>)
    requires a + tail == b + tail
    ensures a == b
  {
    assert a == (a + tail)[..|a|] && b == (b + tail)[..|b|];
  }

  // ----- From blocks to paths -----

  lemma {:induction false} PathGoesOn(g: Graph, l: Layout, stamp: int, root: nat, blocks: seq<Block>, p: seq<nat>, k: nat, x: nat)
    requires Built(g, l, stamp, root, blocks) && k < |blocks| && x <= |blocks[k].instrs| && EdgePath(g, p)
    requires p != [] && blocks[k].instrs != [] ==> Linked(g, p[|p| - 1], blocks[k].start)
    ensures EdgePath(g, p + blocks[k].instrs[..x])
    decreases x
  {
    hide Linked, Marked, Grown, Onward;
    var c := blocks[k].instrs;
    if x == 0 {
      assert p + c[..0] == p;
    } else {
      PathGoesOn(g, l, stamp, root, blocks, p, k, x - 1);
      BlockFacts(g, l, stamp, root, blocks, k);
      var q := p + c[..x - 1];
      assert p + c[..x] == q + [c[x - 1]];
      if x > 1 {
        BlockSteps(g, l, stamp, root, blocks, k, x - 1);
        OnwardLinks(g, l, stamp, c[x - 2]);
      }
      PathLonger(g, q, c[x - 1]);
    }
  }

  lemma PathLonger(g: Graph, p: seq<nat>, j: nat)
    requires EdgePath(g, p) && (p != [] ==> Linked(g, p[|p| - 1], j))
    ensures EdgePath(g, p + [j])
  {
    hide Linked;
  }

  /** Linked pieces spell out a path. */
  lemma {:induction false} SpellsPath(g: Graph, l: Layout, stamp: int, root: nat, blocks: seq<Block>, cuts: seq<Piece>)
    requires Built(g, l, stamp, root, blocks) && BlockPath(g, blocks, cuts)
    ensures EdgePath(g, Spell(blocks, cuts))
  {
    hide Linked, Marked, Grown;
    if cuts != [] {
      var n := |cuts| - 1;
      FewerPieces(g, blocks, cuts);
      SpellsPath(g, l, stamp, root, blocks, cuts[..n]);
      if n > 0 {
        SpellEnds(blocks, cuts[..n]);
        assert Linked(g, cuts[n - 1].Last(blocks), blocks[cuts[n - 1 + 1].k].start);
      }
      PathGoesOn(g, l, stamp, root, blocks, Spell(blocks, cuts[..n]), cuts[n].k, cuts[n].x);
    }
  }

  ghost predicate Cuts(g: Graph, blocks: seq<Block>, cuts: seq<Piece>, p: seq<nat>) {
    BlockPath(g, blocks, cuts) && Spell(blocks, cuts) == p
  }

  /** The paths from the entry of a function are what its linked blocks spell out from the block of the entry. */
  lemma PathsAreBlockPaths(g: Graph, l: Layout, stamp: int, root: nat, blocks: seq<Block>, p: seq<nat>)
    requires Built(g, l, stamp, root, blocks) && p != [] && p[0] == root
    ensures EdgePath(g, p) <==> exists cuts :: Cuts(g, blocks, cuts, p)
    ensures forall cuts, other :: Cuts(g, blocks, cuts, p) && Cuts(g, blocks, other, p) ==> cuts == other
  {
    hide Marked, Grown, EdgePath, BlockPath, Spell;
    if EdgePath(g, p) {
      RootLeads(g, l, stamp, root);
      var cuts := CutExists(g, l, stamp, root, blocks, p);
      assert Cuts(g, blocks, cuts, p);
    }
    if exists cuts :: Cuts(g, blocks, cuts, p) {
      var cuts :| Cuts(g, blocks, cuts, p);
      SpellsPath(g, l, stamp, root, blocks, cuts);
    }
    forall cuts, other | Cuts(g, blocks, cuts, p) && Cuts(g, blocks, other, p) ensures cuts == other {
      PiecesFit(g, blocks, cuts);
      PiecesFit(g, blocks, other);
      CutUnique(g, l, stamp, root, blocks, cuts, other);
    }
  }

  lemma RootLeads(g: Graph, l: Layout, stamp: int, root: nat)
    requires Marked(g, l, stamp, root)
    ensures root in l.members && root < |l.leader| && l.leader[root]
  {
    assert MarkedAt(g, l, stamp, root, root);
  }

  // ----- Links and terminators -----

  /** Only branches have a target of their own, and behind them control may run on. */
  predicate Regular(n: Node) {
    n.ok ==> (n.branch <==> n.target.Some?) && (n.branch ==> n.falls)
  }

  /** The terminator names the address of j, or a target list does. */
  ghost predicate TermLinked(g: Graph, i: nat, j: nat)
    requires i < |g.nodes|
  {
    exists pc :: (pc in Named(TermOf(g, i)) || (g.nodes[i].ok && pc in g.nodes[i].extra)) && g.At(pc) == Some(j)
  }

  lemma {:induction false} ExtraEdges(g: Graph, pcs: seq<nat>, j: nat)
    ensures (exists e :: e in EdgesToAll(g, pcs) && e.to == j) <==> exists pc :: pc in pcs && g.At(pc) == Some(j)
  {
    if pcs != [] {
      ExtraEdges(g, pcs[1..], j);
      assert pcs == [pcs[0]] + pcs[1..];
      if g.At(pcs[0]) == Some(j) {
        assert Edge(j, true) in EdgesToAll(g, pcs);
      }
      if exists e :: e in EdgesToAll(g, pcs[1..]) && e.to == j {
        var e :| e in EdgesToAll(g, pcs[1..]) && e.to == j;
        assert e in EdgesToAll(g, pcs);
      }
    }
  }

  /** A block leads where its terminator, and the target lists of its last instruction, say. */
  lemma LinksAreNamed(g: Graph, i: nat, j: nat)
    requires i < |g.nodes| && Regular(g.nodes[i])
    ensures Linked(g, i, j) <==> TermLinked(g, i, j)
  {
    CountZero(Edges(g, i), j);
    var n := g.nodes[i];
    ExtraEdges(g, n.extra, j);
    if n.ok && n.falls && g.At(n.next) == Some(j) {
      assert Edge(j, n.Ends()) in Edges(g, i);
      assert n.next in Named(TermOf(g, i));
    }
    if n.ok && n.target.Some? && g.At(n.target.value) == Some(j) {
      assert Edge(j, true) in EdgeTo(g, n.target.value, true);
      assert n.target.value in Named(TermOf(g, i));
    }
  }

  /** An instruction behind which control simply runs on names no other. */
  predicate RunsPlainly(n: Node) {
    n.ok && !n.Ends() ==> n.target.None? && n.extra == []
  }

  lemma OnlyRunsOn(g: Graph, l: Layout, stamp: int, i: nat, j: nat)
    requires g.Valid() && i < |g.nodes| == |l.owner| == |l.leader| && Onward(g, l, stamp, i).Some?
    requires RunsPlainly(g.nodes[i]) && Linked(g, i, j)
    ensures j == Onward(g, l, stamp, i).value
  {
    CountZero(Edges(g, i), j);
    assert EdgesToAll(g, []) == [];
    assert Edges(g, i) == [Edge(Onward(g, l, stamp, i).value, false)];
  }

  /** Then blocks are left at their ends only. */
  lemma PiecesAreWhole(g: Graph, l: Layout, stamp: int, root: nat, blocks: seq<Block>, cuts: seq<Piece>, c: nat)
    requires Built(g, l, stamp, root, blocks) && BlockPath(g, blocks, cuts) && c + 1 < |cuts|
    requires forall i :: 0 <= i < |g.nodes| ==> RunsPlainly(g.nodes[i])
    ensures cuts[c].x == |blocks[cuts[c].k].instrs|
  {
    hide Marked, Grown, Linked, Onward, RunsPlainly;
    var k, x := cuts[c].k, cuts[c].x;
    assert Linked(g, cuts[c].Last(blocks), blocks[cuts[c + 1].k].start);
    BlockSteps(g, l, stamp, root, blocks, k, x);
    BlockFacts(g, l, stamp, root, blocks, cuts[c + 1].k);
    if x < |blocks[k].instrs| {
      OnlyRunsOn(g, l, stamp, blocks[k].instrs[x - 1], blocks[cuts[c + 1].k].start);
    }
  }
}
