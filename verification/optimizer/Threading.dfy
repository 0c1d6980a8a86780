/** Jump threading and compaction: jumps go straight to where a chain of jumps leads, jumps to the
    next op disappear, and the ops that are left close up. */
module Threading {
  import opened Bytecode

  const THREAD_HOPS: nat := 8

  // ----- What the passes compute -----

  /** The first op from t on that is kept, or the end of the code. */
  function NextKept(keep: seq<bool>, t: nat): (r: nat)
    ensures r <= |keep|
    ensures t <= |keep| ==> t <= r
    ensures r < |keep| ==> keep[r]
    decreases |keep| - t
  {
    if t >= |keep| then |keep| else if keep[t] then t else NextKept(keep, t + 1)
  }

  /** Follows at most k jumps from the kept op t. */
  function Hop(ops: seq<Op>, keep: seq<bool>, t: nat, k: nat): (r: nat)
    requires |ops| == |keep| && t <= |ops|
    ensures r <= |ops|
    decreases k
  {
    if k == 0 || t == |ops| || !ops[t].J? then t
    else
      var next := NextKept(keep, ops[t].to);
      if next == t then t else Hop(ops, keep, next, k - 1)
  }

  /** Where a jump to t ends up. */
  function Eff(ops: seq<Op>, keep: seq<bool>, t: nat): (r: nat)
    requires |ops| == |keep|
    ensures r <= |ops|
  {
    Hop(ops, keep, NextKept(keep, t), THREAD_HOPS)
  }

  function Threader(ops: seq<Op>, keep: seq<bool>): (f: nat -> nat)
    requires |ops| == |keep|
    ensures forall t :: f(t) == Eff(ops, keep, t)
  {
    t => if |ops| == |keep| then Eff(ops, keep, t) else t
  }

  /** The kept ops with their jumps threaded. */
  ghost predicate Threaded(ops: seq<Op>, keep: seq<bool>, threaded: seq<Op>) {
    && |threaded| == |ops| == |keep|
    && forall i :: 0 <= i < |ops| ==> threaded[i] == if keep[i] then ops[i].Retarget(Threader(ops, keep)) else ops[i]
  }

  function AtOr(s: seq<nat>, t: nat, other: nat): nat {
    if t < |s| then s[t] else other
  }

  /** Op i is a forward jump that, in the end, goes to the op that comes next anyway. */
  predicate JumpsToNext(threaded: seq<Op>, keep: seq<bool>, fin: seq<nat>, i: nat)
    requires i < |threaded| == |keep| && |fin| == |keep| + 1
  {
    && keep[i] && threaded[i].J? && threaded[i].to > i
    && AtOr(fin, threaded[i].to, |keep|) == fin[i + 1]
  }

  /** Op i is dropped exactly when it is such a jump, and the table is right there. */
  predicate PrunedOp(threaded: seq<Op>, keep: seq<bool>, left: seq<bool>, fin: seq<nat>, i: nat)
    requires i < |threaded| == |keep| == |left| && |fin| == |keep| + 1
  {
    && left[i] == (keep[i] && !JumpsToNext(threaded, keep, fin, i))
    && fin[i] == if left[i] then i else fin[i + 1]
  }

  /** `left` are the ops kept without those jumps, and fin[i] is the first of them from i on. */
  ghost predicate Pruned(threaded: seq<Op>, keep: seq<bool>, left: seq<bool>, fin: seq<nat>) {
    && |threaded| == |keep| == |left| && |fin| == |keep| + 1 && fin[|keep|] == |keep|
    && forall i :: 0 <= i < |keep| ==> PrunedOp(threaded, keep, left, fin, i)
  }

  /** How many of the first i ops are left. */
  function Count(left: seq<bool>, i: nat): (r: nat)
    requires i <= |left|
    ensures r <= i
  {
    if i == 0 then 0 else Count(left, i - 1) + if left[i - 1] then 1 else 0
  }

  /** The new place of a target: that of the first op left from there on. */
  function Place(left: seq<bool>, fin: seq<nat>, t: nat): nat
    requires |fin| == |left| + 1 && forall i :: 0 <= i < |fin| ==> fin[i] <= |left|
  {
    if t < |fin| then Count(left, fin[t]) else Count(left, |left|)
  }

  function Placer(left: seq<bool>, fin: seq<nat>): (f: nat -> nat)
    requires |fin| == |left| + 1 && forall i :: 0 <= i < |fin| ==> fin[i] <= |left|
    ensures forall t :: f(t) == Place(left, fin, t)
  {
    t => if |fin| == |left| + 1 && forall i :: 0 <= i < |fin| ==> fin[i] <= |left| then Place(left, fin, t) else t
  }

  lemma {:induction false} FinWithin(threaded: seq<Op>, keep: seq<bool>, left: seq<bool>, fin: seq<nat>, i: nat)
    requires Pruned(threaded, keep, left, fin) && i <= |keep|
    ensures i <= fin[i] <= |keep| && (fin[i] < |keep| ==> left[fin[i]])
    ensures Count(left, fin[i]) == Count(left, i)
    decreases |keep| - i
  {
    if i < |keep| {
      assert PrunedOp(threaded, keep, left, fin, i);
      if !left[i] {
        FinWithin(threaded, keep, left, fin, i + 1);
      }
    }
  }

  /** `fin` is a proper table. */
  ghost predicate Table(left: seq<bool>, fin: seq<nat>) {
    |fin| == |left| + 1 && forall i :: 0 <= i < |fin| ==> fin[i] <= |left|
  }

  lemma PrunedTable(threaded: seq<Op>, keep: seq<bool>, left: seq<bool>, fin: seq<nat>)
    requires Pruned(threaded, keep, left, fin)
    ensures Table(left, fin)
  {
    forall i | 0 <= i < |fin| ensures fin[i] <= |left| {
      FinWithin(threaded, keep, left, fin, i);
    }
  }

  /** The ops left, retargeted to their new places. */
  ghost predicate Compacted(threaded: seq<Op>, left: seq<bool>, fin: seq<nat>, out: seq<Op>)
    requires Table(left, fin) && |threaded| == |left|
  {
    && |out| == Count(left, |left|)
    && forall i :: 0 <= i < |left| && left[i] ==>
         Count(left, i) < |out| && out[Count(left, i)] == threaded[i].Retarget(Placer(left, fin))
  }

  ghost predicate PcsPlaced(left: seq<bool>, fin: seq<nat>, pcs: seq<(nat, nat)>, out: seq<(nat, nat)>)
    requires Table(left, fin)
  {
    |out| == |pcs| && forall i :: 0 <= i < |pcs| ==> out[i] == (pcs[i].0, Place(left, fin, pcs[i].1))
  }

  // ----- The passes -----

  method ComputeNextKept(keep: seq<bool>) returns (nk: seq<nat>)
    ensures |nk| == |keep| + 1 && forall i :: 0 <= i <= |keep| ==> nk[i] == NextKept(keep, i)
  {
    var n := |keep|;
    var a := new nat[n + 1](_ => n);
    for i := n downto 0
      invariant forall k :: i <= k <= n ==> a[k] == NextKept(keep, k)
    {
      a[i] := if keep[i] then i else a[i + 1];
    }
    return a[..];
  }

  /** Follows jumps, at most eight of them; a target beyond the code stands for its end. */
  method Effective(ops: seq<Op>, ghost keep: seq<bool>, nk: seq<nat>, t0: nat) returns (t: nat)
    requires |ops| == |keep| && |nk| == |keep| + 1 && forall i :: 0 <= i <= |keep| ==> nk[i] == NextKept(keep, i)
    ensures t == Eff(ops, keep, t0)
  {
    t := AtOr(nk, t0, |ops|);
    for i := 0 to THREAD_HOPS
      invariant t <= |ops| && Eff(ops, keep, t0) == Hop(ops, keep, t, THREAD_HOPS - i)
    {
      if t < |ops| && ops[t].J? {
        var next := AtOr(nk, ops[t].to, |ops|);
        if next == t {
          break;
        }
        t := next;
      } else {
        break;
      }
    }
  }

  method ThreadOp(op: Op, ops: seq<Op>, ghost keep: seq<bool>, nk: seq<nat>) returns (r: Op)
    requires |ops| == |keep| && |nk| == |keep| + 1 && forall i :: 0 <= i <= |keep| ==> nk[i] == NextKept(keep, i)
    ensures r == op.Retarget(Threader(ops, keep))
  {
    hide Eff;
    r := op;
    if op.Forks() {
      var t := Effective(ops, keep, nk, op.thenArm);
      var e := Effective(ops, keep, nk, op.elseArm);
      r := op.(thenArm := t, elseArm := e);
    } else if op.Jumps() {
      var t := Effective(ops, keep, nk, op.to);
      r := op.(to := t);
    }
    RetargetedFields(op, Threader(ops, keep));
  }

  method ThreadJumps(ops: seq<Op>, keep: seq<bool>) returns (threaded: seq<Op>)
    requires |ops| == |keep|
    ensures Threaded(ops, keep, threaded) && |threaded| == |ops|
  {
    hide Op.Retarget, Eff;
    var nk := ComputeNextKept(keep);
    threaded := [];
    for i := 0 to |ops|
      invariant |threaded| == i
      invariant forall k :: 0 <= k < i ==> threaded[k] == if keep[k] then ops[k].Retarget(Threader(ops, keep)) else ops[k]
    {
      var op := ops[i];
      if keep[i] {
        op := ThreadOp(op, ops, keep, nk);
      }
      threaded := threaded + [op];
    }
  }

  lemma RetargetedFields(op: Op, f: nat -> nat)
    ensures op.Forks() ==> op.Retarget(f) == op.(thenArm := f(op.thenArm), elseArm := f(op.elseArm))
    ensures op.Jumps() && !op.Forks() ==> op.Retarget(f) == op.(to := f(op.to))
    ensures !op.Jumps() ==> op.Retarget(f) == op
  {
  }

  /** The table is right from op i on. */
  ghost predicate PrunedFrom(threaded: seq<Op>, keep: seq<bool>, left: seq<bool>, fin: seq<nat>, i: nat) {
    && |threaded| == |keep| == |left| && |fin| == |keep| + 1 && fin[|keep|] == |keep|
    && (forall k :: 0 <= k < i && k < |keep| ==> left[k] == keep[k])
    && forall k :: i <= k < |keep| ==> PrunedOp(threaded, keep, left, fin, k)
  }

  lemma PrunedStep(threaded: seq<Op>, keep: seq<bool>, left: seq<bool>, fin: seq<nat>, i: nat)
    requires PrunedFrom(threaded, keep, left, fin, i + 1) && i < |keep|
    ensures var stays := keep[i] && !JumpsToNext(threaded, keep, fin, i);
            PrunedFrom(threaded, keep, left[i := stays], fin[i := if stays then i else fin[i + 1]], i)
  {
    var stays := keep[i] && !JumpsToNext(threaded, keep, fin, i);
    var left', fin' := left[i := stays], fin[i := if stays then i else fin[i + 1]];
    forall k | i <= k < |keep| ensures PrunedOp(threaded, keep, left', fin', k) {
      assert JumpsToNext(threaded, keep, fin', k) == JumpsToNext(threaded, keep, fin, k);
      if k > i {
        assert PrunedOp(threaded, keep, left, fin, k);
      }
    }
  }

  /** Drops, from the back, the jumps that only go to what comes next. */
  method PruneJumps(threaded: seq<Op>, keep: seq<bool>) returns (left: seq<bool>, fin: seq<nat>)
    requires |threaded| == |keep|
    ensures Pruned(threaded, keep, left, fin)
  {
    var n := |keep|;
    var kept, a := new bool[n](i requires 0 <= i < n => keep[i]), new nat[n + 1](_ => n);
    for i := n downto 0
      invariant PrunedFrom(threaded, keep, kept[..], a[..], i)
    {
      ghost var left0, fin0 := kept[..], a[..];
      if JumpsToNext(threaded, keep, a[..], i) {
        kept[i] := false;
      }
      a[i] := if kept[i] then i else a[i + 1];
      PrunedStep(threaded, keep, left0, fin0, i);
      ghost var stays := keep[i] && !JumpsToNext(threaded, keep, fin0, i);
      assert kept[..] == left0[i := stays] && a[..] == fin0[i := if stays then i else fin0[i + 1]];
    }
    left, fin := kept[..], a[..];
  }

  method ComputePlaces(left: seq<bool>) returns (remap: seq<nat>)
    ensures |remap| == |left| + 1 && forall i :: 0 <= i <= |left| ==> remap[i] == Count(left, i)
  {
    var c := 0;
    remap := [];
    for i := 0 to |left|
      invariant |remap| == i && c == Count(left, i)
      invariant forall k :: 0 <= k < i ==> remap[k] == Count(left, k)
    {
      remap := remap + [c];
      if left[i] {
        c := c + 1;
      }
    }
    remap := remap + [c];
  }

  /** The first i ops have been moved. */
  ghost predicate MovedTo(threaded: seq<Op>, left: seq<bool>, f: nat -> nat, out: seq<Op>, i: nat)
    requires i <= |left| == |threaded|
  {
    && |out| == Count(left, i)
    && forall k :: 0 <= k < i && left[k] ==> Count(left, k) < |out| && out[Count(left, k)] == threaded[k].Retarget(f)
  }

  lemma MovedOne(threaded: seq<Op>, left: seq<bool>, f: nat -> nat, out: seq<Op>, i: nat)
    requires i < |left| == |threaded| && MovedTo(threaded, left, f, out, i)
    ensures MovedTo(threaded, left, f, if left[i] then out + [threaded[i].Retarget(f)] else out, i + 1)
  {
    hide Op.Retarget;
  }

  method RetargetOp(op: Op, left: seq<bool>, fin: seq<nat>, remap: seq<nat>) returns (r: Op)
    requires Table(left, fin)
    requires |remap| == |left| + 1 && forall i :: 0 <= i <= |left| ==> remap[i] == Count(left, i)
    ensures r == op.Retarget(Placer(left, fin))
  {
    var c := remap[|left|];
    r := op;
    if op.Forks() {
      r := op.(thenArm := if op.thenArm < |fin| then remap[fin[op.thenArm]] else c,
               elseArm := if op.elseArm < |fin| then remap[fin[op.elseArm]] else c);
    } else if op.Jumps() {
      r := op.(to := if op.to < |fin| then remap[fin[op.to]] else c);
    }
    RetargetedFields(op, Placer(left, fin));
  }

  /** Moves the ops left to the front, retargeted. */
  method MoveOps(threaded: seq<Op>, left: seq<bool>, fin: seq<nat>, remap: seq<nat>) returns (out: seq<Op>)
    requires Table(left, fin) && |threaded| == |left|
    requires |remap| == |left| + 1 && forall i :: 0 <= i <= |left| ==> remap[i] == Count(left, i)
    ensures Compacted(threaded, left, fin, out)
  {
    hide Op.Retarget, Count;
    out := [];
    CountNone(left);
    for i := 0 to |left|
      invariant MovedTo(threaded, left, Placer(left, fin), out, i)
    {
      MovedOne(threaded, left, Placer(left, fin), out, i);
      if left[i] {
        var op := RetargetOp(threaded[i], left, fin, remap);
        out := out + [op];
      }
    }
  }

  lemma CountNone(left: seq<bool>)
    ensures Count(left, 0) == 0
  {
  }

  /** Closes up: the ops left move to the front, and every target and block address follows. */
  method Compact(threaded: seq<Op>, left: seq<bool>, fin: seq<nat>, pcs: seq<(nat, nat)>, entry: nat)
    returns (out: seq<Op>, pcs': seq<(nat, nat)>, entry': nat)
    requires Table(left, fin) && |threaded| == |left|
    ensures Compacted(threaded, left, fin, out) && PcsPlaced(left, fin, pcs, pcs') && entry' == Place(left, fin, entry)
  {
    var remap := ComputePlaces(left);
    var c := remap[|left|];
    out := MoveOps(threaded, left, fin, remap);
    pcs' := [];
    for i := 0 to |pcs|
      invariant |pcs'| == i && forall k :: 0 <= k < i ==> pcs'[k] == (pcs[k].0, Place(left, fin, pcs[k].1))
    {
      var t := pcs[i].1;
      pcs' := pcs' + [(pcs[i].0, if t < |fin| then remap[fin[t]] else c)];
    }
    entry' := if entry < |fin| then remap[fin[entry]] else c;
  }
}
