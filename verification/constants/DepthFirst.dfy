/** The depth-first search through the blocks: which blocks the roots reach, in the order in which the search
    leaves them, and whether there is a cycle among them. */
module DepthFirst {
  import opened Basics
  import opened Programs

  /** The successors by their place in the terminator, as far as they are blocks of the program. */
  function Succ(p: seq<Block>, u: nat, i: nat): Option<nat>
    requires u < |p|
  {
    var t := match p[u].term
      case Goto(t) => if i == 0 then Some(t) else None
      case Branch(_, _, t, e) => if i == 0 then Some(t) else if i == 1 then Some(e) else None
      case Dynamic(Some(t)) => if i == 0 then Some(t) else None
      case _ => None;
    if t.Some? && t.value < |p| && p[t.value].live then t else None
  }

  datatype Color = White | Gray | Black

  datatype Visit = Visit(u: nat, i: nat)

  /** The search in progress: how far the successors of every block on the stack are examined. */
  datatype Search = Search(color: seq<Color>, stack: seq<Visit>, order: seq<nat>, cyclic: bool)

  ghost predicate Shape(p: seq<Block>, s: Search) {
    && |s.color| == |p| && Distinct(s.order)
    && (forall k :: 0 <= k < |s.stack| ==> s.stack[k].u < |p| && s.stack[k].i <= 2)
    && (forall k :: 0 <= k < |s.stack| ==> s.color[s.stack[k].u] == Gray)
    && (forall j, k :: 0 <= j < k < |s.stack| ==> s.stack[j].u != s.stack[k].u)
    && (forall k :: 0 <= k < |s.order| ==> s.order[k] < |p|)
    && (forall u: nat :: u < |p| ==> (s.color[u] == Black <==> u in s.order))
    && (forall u: nat :: u < |p| && s.color[u] == Gray ==> OnStack(s, u))
  }

  ghost predicate OnStack(s: Search, u: nat) {
    exists k :: 0 <= k < |s.stack| && s.stack[k].u == u
  }

  /** All successors of the k-th block of the order stand before it. */
  ghost predicate Preceded(p: seq<Block>, order: seq<nat>, k: nat)
    requires k < |order| && order[k] < |p|
  {
    forall i: nat :: i < 2 && Succ(p, order[k], i).Some? ==> Succ(p, order[k], i).value in order[..k]
  }

  ghost predicate Postorder(p: seq<Block>, order: seq<nat>) {
    && Distinct(order) && (forall k :: 0 <= k < |order| ==> order[k] < |p|)
    && forall k :: 0 <= k < |order| ==> Preceded(p, order, k)
  }

  /** A successor already examined is done with, unless the search is still in it. */
  ghost predicate Examined(p: seq<Block>, s: Search, k: nat, i: nat)
    requires Shape(p, s) && k < |s.stack| && i < s.stack[k].i
  {
    var t := Succ(p, s.stack[k].u, i);
    t.Some? ==> s.color[t.value] == Black || (k + 1 < |s.stack| && s.stack[k + 1].u == t.value)
  }

  // ----- What is reached -----

  ghost predicate Leads(p: seq<Block>, u: nat, t: nat) {
    u < |p| && (Succ(p, u, 0) == Some(t) || Succ(p, u, 1) == Some(t))
  }

  /** A path along the successors, from a root. */
  ghost predicate Path(p: seq<Block>, roots: seq<bool>, path: seq<nat>) {
    && path != [] && path[0] < |p| == |roots| && roots[path[0]]
    && forall k :: 0 <= k < |path| - 1 ==> Leads(p, path[k], path[k + 1])
  }

  ghost predicate PathTo(p: seq<Block>, roots: seq<bool>, path: seq<nat>, u: nat) {
    Path(p, roots, path) && path[|path| - 1] == u
  }

  ghost predicate Reached(p: seq<Block>, roots: seq<bool>, u: nat) {
    exists path :: PathTo(p, roots, path, u)
  }

  /** A path that comes back to where it was. */
  ghost predicate Lasso(p: seq<Block>, roots: seq<bool>, path: seq<nat>, k: nat) {
    Path(p, roots, path) && k < |path| - 1 && path[k] == path[|path| - 1]
  }

  ghost predicate Cyclic(p: seq<Block>, roots: seq<bool>) {
    exists path, k: nat :: Lasso(p, roots, path, k)
  }

  /** The blocks on the stack. */
  function Trail(stack: seq<Visit>): (r: seq<nat>)
    ensures |r| == |stack| && forall k :: 0 <= k < |r| ==> r[k] == stack[k].u
  {
    seq(|stack|, k requires 0 <= k < |stack| => stack[k].u)
  }

  /** The stack is a path, what was left was reached, and so was a cycle if one was met. */
  ghost predicate Honest(p: seq<Block>, roots: seq<bool>, s: Search) {
    && (s.stack != [] ==> Path(p, roots, Trail(s.stack)))
    && (forall u :: u in s.order ==> Reached(p, roots, u))
    && (s.cyclic ==> Cyclic(p, roots))
  }

  /** Nothing that was looked at is still white. */
  ghost predicate Looked(p: seq<Block>, s: Search, u: nat, i: nat)
    requires |s.color| == |p| && u < |p|
  {
    Succ(p, u, i).Some? ==> Succ(p, u, i).value < |p| && s.color[Succ(p, u, i).value] != White
  }

  ghost predicate Thorough(p: seq<Block>, s: Search)
    requires |s.color| == |p|
  {
    && (forall u: nat, i: nat :: u < |p| && i < 2 && s.color[u] == Black ==> Looked(p, s, u, i))
    && (forall k: nat, i: nat :: k < |s.stack| && s.stack[k].u < |p| && i < s.stack[k].i ==> Looked(p, s, s.stack[k].u, i))
  }

  lemma {:induction false} PathInside(p: seq<Block>, roots: seq<bool>, path: seq<nat>, k: nat)
    requires Path(p, roots, path) && k < |path|
    ensures path[k] < |p|
  {
    if k > 0 {
      assert Leads(p, path[k - 1], path[k - 1 + 1]);
      SuccInside(p, path[k - 1], 0);
      SuccInside(p, path[k - 1], 1);
    }
  }

  lemma PathLonger(p: seq<Block>, roots: seq<bool>, path: seq<nat>, t: nat)
    requires Path(p, roots, path) && Leads(p, path[|path| - 1], t)
    ensures Path(p, roots, path + [t])
  {
    hide Leads;
  }

  lemma PathShorter(p: seq<Block>, roots: seq<bool>, path: seq<nat>, n: nat)
    requires Path(p, roots, path) && 0 < n <= |path|
    ensures Path(p, roots, path[..n])
  {
    hide Leads;
  }

  lemma MoveHonest(p: seq<Block>, roots: seq<bool>, s: Search)
    requires Shape(p, s) && s.stack != [] && Honest(p, roots, s)
    ensures Honest(p, roots, Move(p, s))
  {
    hide Shape, Succ, Reached, Path, Cyclic;
    ShapeTop(p, s);
    var n, r := |s.stack| - 1, Move(p, s);
    var top, trail := s.stack[n], Trail(s.stack);
    if top.i < 2 {
      SuccInside(p, top.u, top.i);
      var t := Succ(p, top.u, top.i);
      assert Trail(Advance(s).stack) == trail;
      if t.Some? {
        assert Leads(p, top.u, t.value);
        if s.color[t.value] == White {
          PathLonger(p, roots, trail, t.value);
          assert Trail(r.stack) == trail + [t.value];
        } else if s.color[t.value] == Gray {
          PathLonger(p, roots, trail, t.value);
          GrayOnTrail(p, s, t.value);
          var k :| 0 <= k < |trail| && trail[k] == t.value;
          assert Lasso(p, roots, trail + [t.value], k);
          LassoCyclic(p, roots, trail + [t.value], k);
        }
      }
    } else {
      assert PathTo(p, roots, trail, top.u);
      TrailReached(p, roots, trail, top.u);
      if n > 0 {
        PathShorter(p, roots, trail, n);
        assert Trail(r.stack) == trail[..n];
      }
    }
  }

  lemma TrailReached(p: seq<Block>, roots: seq<bool>, path: seq<nat>, u: nat)
    requires PathTo(p, roots, path, u)
    ensures Reached(p, roots, u)
  {
  }

  lemma LassoCyclic(p: seq<Block>, roots: seq<bool>, path: seq<nat>, k: nat)
    requires Lasso(p, roots, path, k)
    ensures Cyclic(p, roots)
  {
  }

  lemma GrayOnTrail(p: seq<Block>, s: Search, u: nat)
    requires Shape(p, s) && u < |p| && s.color[u] == Gray
    ensures u in Trail(s.stack)
  {
    assert OnStack(s, u);
    var k :| 0 <= k < |s.stack| && s.stack[k].u == u;
    assert Trail(s.stack)[k] == u;
  }

  lemma MoveThorough(p: seq<Block>, s: Search)
    requires Shape(p, s) && s.stack != [] && Thorough(p, s) && Shape(p, Move(p, s)) && KeepsColored(s, Move(p, s))
    ensures Thorough(p, Move(p, s))
  {
    hide Succ, Shape;
    ShapeTop(p, s);
    var n, r := |s.stack| - 1, Move(p, s);
    var top := s.stack[n];
    SuccInside(p, top.u, top.i);
    StackSuccs(p, s);
    assert |r.color| == |p|;
    forall u: nat, i: nat | u < |p| && i < 2 && r.color[u] == Black ensures Looked(p, r, u, i) {
      SuccInside(p, u, i);
      if u == top.u && top.i >= 2 {
        assert Looked(p, s, s.stack[n].u, i);
      } else {
        assert Looked(p, s, u, i);
      }
    }
    forall k: nat, i: nat | k < |r.stack| && r.stack[k].u < |p| && i < r.stack[k].i ensures Looked(p, r, r.stack[k].u, i) {
      if k < n || (k == n && i < top.i) {
        assert Looked(p, s, s.stack[k].u, i);
      }
    }
  }

  /** What leads from the order leads into the order, once the search is over. */
  lemma {:induction false} ReachedLeft(p: seq<Block>, roots: seq<bool>, s: Search, path: seq<nat>, k: nat)
    requires Shape(p, s) && s.stack == [] && Thorough(p, s) && Path(p, roots, path) && k < |path|
    requires forall b: nat :: b < |p| && roots[b] ==> s.color[b] != White
    ensures path[k] in s.order
  {
    hide Succ;
    PathInside(p, roots, path, k);
    if k > 0 {
      ReachedLeft(p, roots, s, path, k - 1);
      PathInside(p, roots, path, k - 1);
      assert Leads(p, path[k - 1], path[k - 1 + 1]);
      assert Looked(p, s, path[k - 1], 0) && Looked(p, s, path[k - 1], 1);
    }
    assert s.color[path[k]] == Gray ==> OnStack(s, path[k]);
  }

  /** Along a path, positions in a postorder fall. */
  lemma {:induction false} PathFalls(p: seq<Block>, roots: seq<bool>, order: seq<nat>, path: seq<nat>, a: nat, b: nat, i: nat) returns (j: nat)
    requires Postorder(p, order) && Path(p, roots, path) && a < b < |path| && i < |order| && order[i] == path[a]
    ensures j < i && order[j] == path[b]
    decreases b
  {
    hide Succ;
    var m := i;
    if a < b - 1 {
      m := PathFalls(p, roots, order, path, a, b - 1, i);
    }
    assert Preceded(p, order, m) && Leads(p, path[b - 1], path[b - 1 + 1]);
    j :| 0 <= j < m && order[..m][j] == path[b];
  }

  lemma PostorderAcyclic(p: seq<Block>, roots: seq<bool>, order: seq<nat>)
    requires Postorder(p, order) && forall u: nat :: u < |p| && Reached(p, roots, u) ==> u in order
    ensures !Cyclic(p, roots)
  {
    hide Succ, Leads;
    forall path, k: nat | Lasso(p, roots, path, k) ensures false {
      PathShorter(p, roots, path, k + 1);
      PathInside(p, roots, path, k);
      TrailReached(p, roots, path[..k + 1], path[k]);
      var i :| 0 <= i < |order| && order[i] == path[k];
      var j := PathFalls(p, roots, order, path, k, |path| - 1, i);
    }
  }

  ghost predicate Sound(p: seq<Block>, s: Search) {
    && Shape(p, s)
    && (!s.cyclic ==> Postorder(p, s.order))
    && (!s.cyclic ==> forall k: nat, i: nat :: k < |s.stack| && i < s.stack[k].i ==> Examined(p, s, k, i))
  }

  /** The next successor of the block on top has been looked at. */
  function Advance(s: Search): Search
    requires s.stack != []
  {
    var n := |s.stack| - 1;
    s.(stack := s.stack[n := Visit(s.stack[n].u, s.stack[n].i + 1)])
  }

  function Enter(s: Search, t: nat): Search
    requires t < |s.color|
  {
    s.(color := s.color[t := Gray], stack := s.stack + [Visit(t, 0)])
  }

  function Leave(s: Search): Search
    requires s.stack != [] && s.stack[|s.stack| - 1].u < |s.color|
  {
    var n := |s.stack| - 1;
    Search(s.color[s.stack[n].u := Black], s.stack[..n], s.order + [s.stack[n].u], s.cyclic)
  }

  /** One move of the search: the next successor of the block on top, or the end of that block. */
  function Move(p: seq<Block>, s: Search): (r: Search)
    requires s.stack != [] && s.stack[|s.stack| - 1].u < |p| == |s.color|
  {
    var top := s.stack[|s.stack| - 1];
    if top.i < 2 then
      var t := Succ(p, top.u, top.i);
      if t.None? || s.color[t.value] == Black then Advance(s)
      else if s.color[t.value] == White then Enter(Advance(s), t.value)
      else Advance(s).(cyclic := true)
    else Leave(s)
  }

  function Whites(color: seq<Color>): nat {
    if color == [] then 0 else (if color[0] == White then 1 else 0) + Whites(color[1..])
  }

  function Left(stack: seq<Visit>): nat
  {
    if stack == [] then 0
    else Left(stack[..|stack| - 1]) + (if stack[|stack| - 1].i <= 2 then 3 - stack[|stack| - 1].i else 0)
  }

  lemma {:induction false} WhitesUpdate(color: seq<Color>, u: nat, c: Color)
    requires u < |color| && c != White
    ensures Whites(color[u := c]) == Whites(color) - (if color[u] == White then 1 else 0)
  {
    if u == 0 {
      assert color[u := c][1..] == color[1..];
    } else {
      WhitesUpdate(color[1..], u - 1, c);
      assert color[u := c][1..] == color[1..][u - 1 := c];
    }
  }

  lemma MoveMeasure(p: seq<Block>, s: Search)
    requires Shape(p, s) && s.stack != []
    ensures var r := Move(p, s);
            Whites(r.color) < Whites(s.color) || (Whites(r.color) == Whites(s.color) && Left(r.stack) < Left(s.stack))
  {
    hide Shape, Succ;
    ShapeTop(p, s);
    var n := |s.stack| - 1;
    var top := s.stack[n];
    if top.i < 2 {
      SuccInside(p, top.u, top.i);
      var t := Succ(p, top.u, top.i);
      assert Advance(s).stack[..n] == s.stack[..n];
      if t.Some? && s.color[t.value] == White {
        WhitesUpdate(s.color, t.value, Gray);
      }
    } else {
      WhitesUpdate(s.color, top.u, Black);
    }
  }

  lemma ShapeTop(p: seq<Block>, s: Search)
    requires Shape(p, s) && s.stack != []
    ensures var top := s.stack[|s.stack| - 1]; top.u < |p| == |s.color| && top.i <= 2 && s.color[top.u] == Gray
  {
  }

  lemma SuccInside(p: seq<Block>, u: nat, i: nat)
    requires u < |p|
    ensures Succ(p, u, i).Some? ==> Succ(p, u, i).value < |p| && p[Succ(p, u, i).value].live
  {
  }

  ghost predicate KeepsColored(s: Search, r: Search) {
    |s.color| == |r.color| && forall u: nat :: u < |s.color| && s.color[u] != White ==> r.color[u] != White
  }

  lemma AdvanceShape(p: seq<Block>, s: Search)
    requires Shape(p, s) && s.stack != [] && s.stack[|s.stack| - 1].i < 2
    ensures Shape(p, Advance(s)) && KeepsColored(s, Advance(s))
  {
    var r := Advance(s);
    forall u: nat | u < |p| && s.color[u] == Gray ensures OnStack(r, u) {
      var k :| 0 <= k < |s.stack| && s.stack[k].u == u;
      assert r.stack[k].u == u;
    }
  }

  lemma EnterShape(p: seq<Block>, s: Search, t: nat)
    requires Shape(p, s) && t < |p| && s.color[t] == White
    ensures Shape(p, Enter(s, t)) && KeepsColored(s, Enter(s, t))
  {
    var r := Enter(s, t);
    assert r.stack[|s.stack|].u == t;
    forall u: nat | u < |p| && r.color[u] == Gray ensures OnStack(r, u) {
      if u != t {
        var k :| 0 <= k < |s.stack| && s.stack[k].u == u;
        assert r.stack[k].u == u;
      }
    }
  }

  lemma LeaveShape(p: seq<Block>, s: Search)
    requires Shape(p, s) && s.stack != []
    ensures Shape(p, Leave(s)) && KeepsColored(s, Leave(s))
  {
    hide OnStack;
    var n, r := |s.stack| - 1, Leave(s);
    var top := s.stack[n].u;
    assert top !in s.order;
    DistinctMore(s.order, top);
    assert forall u :: u in r.order <==> u in s.order || u == top;
    forall u: nat | u < |p| && r.color[u] == Gray ensures OnStack(r, u) {
      StaysOnStack(s, u);
    }
  }

  lemma StaysOnStack(s: Search, u: nat)
    requires OnStack(s, u) && s.stack != [] && s.stack[|s.stack| - 1].u != u && s.stack[|s.stack| - 1].u < |s.color|
    ensures OnStack(Leave(s), u)
  {
    var k :| 0 <= k < |s.stack| && s.stack[k].u == u;
    assert Leave(s).stack[k].u == u;
  }

  lemma MoveShape(p: seq<Block>, s: Search)
    requires Shape(p, s) && s.stack != []
    ensures Shape(p, Move(p, s)) && KeepsColored(s, Move(p, s))
  {
    hide Succ, Shape, Leave, Enter, Advance;
    ShapeTop(p, s);
    var top := s.stack[|s.stack| - 1];
    if top.i < 2 {
      SuccInside(p, top.u, top.i);
      AdvanceShape(p, s);
      AdvanceColor(s);
      var t := Succ(p, top.u, top.i);
      if t.Some? && s.color[t.value] == White {
        EnterShape(p, Advance(s), t.value);
      } else if t.Some? && s.color[t.value] == Gray {
        CyclicShape(p, Advance(s));
      }
    } else {
      LeaveShape(p, s);
    }
  }

  lemma AdvanceColor(s: Search)
    requires s.stack != []
    ensures Advance(s).color == s.color && Advance(s).cyclic == s.cyclic
  {
  }

  lemma CyclicShape(p: seq<Block>, s: Search)
    requires Shape(p, s)
    ensures Shape(p, s.(cyclic := true))
  {
    forall u: nat | u < |p| && s.color[u] == Gray ensures OnStack(s.(cyclic := true), u) {
      assert OnStack(s, u);
    }
  }

  lemma MoveExamined(p: seq<Block>, s: Search, k: nat, i: nat)
    requires Sound(p, s) && s.stack != [] && !Move(p, s).cyclic && Shape(p, Move(p, s))
    requires k < |Move(p, s).stack| && i < Move(p, s).stack[k].i
    ensures Examined(p, Move(p, s), k, i)
  {
    hide Succ, Postorder, Shape;
    ShapeTop(p, s);
    var n := |s.stack| - 1;
    var top := s.stack[n];
    SuccInside(p, top.u, top.i);
    StackSuccs(p, s);
    if k < n || (k == n && i < top.i) {
      assert Examined(p, s, k, i);
    }
  }

  lemma StackSuccs(p: seq<Block>, s: Search)
    requires Shape(p, s)
    ensures |s.color| == |p| && forall k :: 0 <= k < |s.stack| ==> s.stack[k].u < |p| && s.color[s.stack[k].u] == Gray
    ensures forall k, i: nat :: 0 <= k < |s.stack| && Succ(p, s.stack[k].u, i).Some? ==> Succ(p, s.stack[k].u, i).value < |p|
  {
  }

  lemma MoveOrder(p: seq<Block>, s: Search)
    requires Sound(p, s) && s.stack != [] && !s.cyclic && Shape(p, Move(p, s))
    ensures Postorder(p, Move(p, s).order)
  {
    hide Succ;
    var n := |s.stack| - 1;
    var top, r := s.stack[n], Move(p, s);
    if top.i >= 2 {
      forall k | 0 <= k < |r.order| ensures Preceded(p, r.order, k) {
        if k < |s.order| {
          assert Preceded(p, s.order, k) && r.order[..k] == s.order[..k];
        } else {
          assert r.order[..k] == s.order;
          forall i: nat | i < 2 && Succ(p, top.u, i).Some? ensures Succ(p, top.u, i).value in s.order {
            assert Examined(p, s, n, i);
            SuccInside(p, top.u, i);
          }
        }
      }
    }
  }

  lemma MoveSound(p: seq<Block>, s: Search)
    requires Sound(p, s) && s.stack != []
    ensures Sound(p, Move(p, s)) && KeepsColored(s, Move(p, s))
  {
    hide Succ, Shape, Postorder, Move, Examined;
    ShapeTop(p, s);
    var r := Move(p, s);
    MoveShape(p, s);
    if !r.cyclic {
      MoveOnlyAdds(p, s);
      MoveOrder(p, s);
      forall k: nat, i: nat | k < |r.stack| && i < r.stack[k].i ensures Examined(p, r, k, i) {
        MoveExamined(p, s, k, i);
      }
    }
  }

  lemma MoveOnlyAdds(p: seq<Block>, s: Search)
    requires Shape(p, s) && s.stack != []
    ensures s.cyclic ==> Move(p, s).cyclic
  {
  }

  /** The order in which a search from the roots leaves the blocks: exactly those that the roots reach. If none of
      them is on a cycle, every block comes after all of its successors. */
  method LeaveOrder(p: seq<Block>, roots: seq<bool>) returns (order: seq<nat>, cyclic: bool)
    requires |roots| == |p|
    ensures Distinct(order) && forall u: nat :: u in order <==> u < |p| && Reached(p, roots, u)
    ensures forall b: nat :: b < |p| && roots[b] ==> b in order
    ensures cyclic <==> Cyclic(p, roots)
    ensures !cyclic ==> Postorder(p, order)
  {
    hide Succ, Shape, Postorder, Examined, Move, Honest, Thorough, Cyclic, Reached;
    var s := Search(seq(|p|, _ => White), [], [], false);
    FreshSound(p, roots, s);
    var b := 0;
    while b < |p|
      invariant b <= |p| && Found(p, roots, s) && s.stack == []
      invariant forall c: nat :: c < b && roots[c] ==> s.color[c] != White
    {
      if roots[b] && s.color[b] == White {
        EnterSound(p, roots, s, b);
        s := Enter(s, b);
        while s.stack != []
          invariant Found(p, roots, s)
          invariant forall c: nat :: c <= b && roots[c] ==> s.color[c] != White
          decreases Whites(s.color), Left(s.stack)
        {
          MoveFound(p, roots, s);
          s := Move(p, s);
        }
      }
      b := b + 1;
    }
    order, cyclic := s.order, s.cyclic;
    SearchOver(p, roots, s);
  }

  ghost predicate Found(p: seq<Block>, roots: seq<bool>, s: Search) {
    Sound(p, s) && |s.color| == |p| && Honest(p, roots, s) && Thorough(p, s)
  }

  lemma MoveFound(p: seq<Block>, roots: seq<bool>, s: Search)
    requires Found(p, roots, s) && s.stack != []
    ensures s.stack[|s.stack| - 1].u < |p| && Found(p, roots, Move(p, s)) && KeepsColored(s, Move(p, s))
    ensures var r := Move(p, s);
            Whites(r.color) < Whites(s.color) || (Whites(r.color) == Whites(s.color) && Left(r.stack) < Left(s.stack))
  {
    hide Succ, Shape, Postorder, Examined, Move, Honest, Thorough;
    ShapeTop(p, s);
    MoveSound(p, s);
    MoveMeasure(p, s);
    MoveHonest(p, roots, s);
    MoveThorough(p, s);
  }

  lemma FreshSound(p: seq<Block>, roots: seq<bool>, s: Search)
    requires s == Search(seq(|p|, _ => White), [], [], false)
    ensures Found(p, roots, s)
  {
  }

  lemma EnterSound(p: seq<Block>, roots: seq<bool>, s: Search, b: nat)
    requires Found(p, roots, s) && s.stack == [] && b < |p| == |roots| && roots[b] && s.color[b] == White
    ensures Found(p, roots, Enter(s, b)) && KeepsColored(s, Enter(s, b)) && Enter(s, b).color[b] != White
  {
    hide Succ;
    EnterShape(p, s, b);
    assert Trail(Enter(s, b).stack) == [b];
    forall u: nat, i: nat | u < |p| && i < 2 && Enter(s, b).color[u] == Black ensures Looked(p, Enter(s, b), u, i) {
      assert Looked(p, s, u, i);
    }
  }

  lemma SearchOver(p: seq<Block>, roots: seq<bool>, s: Search)
    requires Found(p, roots, s) && s.stack == [] && |roots| == |p| && forall b: nat :: b < |p| && roots[b] ==> s.color[b] != White
    ensures Distinct(s.order) && forall u: nat :: u in s.order <==> u < |p| && Reached(p, roots, u)
    ensures forall b: nat :: b < |p| && roots[b] ==> b in s.order
    ensures s.cyclic <==> Cyclic(p, roots)
    ensures !s.cyclic ==> Postorder(p, s.order)
  {
    hide Succ, Path, Thorough, Postorder, Cyclic;
    forall u: nat | u < |p| && Reached(p, roots, u) ensures u in s.order {
      var path :| PathTo(p, roots, path, u);
      PathNotEmpty(p, roots, path);
      ReachedLeft(p, roots, s, path, |path| - 1);
    }
    if !s.cyclic {
      PostorderAcyclic(p, roots, s.order);
    }
  }

  lemma PathNotEmpty(p: seq<Block>, roots: seq<bool>, path: seq<nat>)
    requires Path(p, roots, path)
    ensures path != []
  {
  }
}
