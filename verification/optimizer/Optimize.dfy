/** The optimizer: dead stores, call fusion, jump threading and compaction, in that order; and the
    theorem that it changes no run. */
module Optimize {
  import opened Basics
  import opened Bytecode
  import opened Machine
  import opened Liveness
  import opened LiveRuns
  import opened Fusion
  import opened FusionRuns
  import opened Threading
  import opened ThreadedRuns

  predicate ListsFit(ops: seq<Op>, lists: seq<Reg>) {
    forall i :: 0 <= i < |ops| ==> ops[i].ListFits(lists)
  }

  /** The two arrays before the apply at i3, if they are found where they can be trusted. */
  method FindArrays(code: Code, target: seq<bool>, i3: nat) returns (r: Option<Site>)
    requires |code.keep| == |code.ops| && |target| == |code.ops| + 1 && ListsFit(code.ops, code.lists) && i3 < |code.ops|
    ensures r.Some? ==> r.value.i3 == i3 && Located(code, target, r.value)
    ensures forall s: Site :: s.i3 == i3 && Located(code, target, s) ==> r == Some(s)
  {
    hide Op.ListFits;
    r := None;
    if !code.keep[i3] || !code.ops[i3].Apply? {
      return;
    }
    var found := FindDefBefore(code.ops, code.keep, target, i3, code.ops[i3].arr);
    if found.None? || !code.ops[found.value].Array? || code.ops[found.value].count != 2 {
      return;
    }
    var i2 := found.value;
    Fits(code, i2);
    found := FindDefBefore(code.ops, code.keep, target, i2, code.lists[code.ops[i2].a + 1]);
    if found.None? || !code.ops[found.value].Array? {
      return;
    }
    Fits(code, found.value);
    r := Some(Site(found.value, i2, i3));
  }

  /** The part of the checks that fixes the site. */
  predicate Located(code: Code, target: seq<bool>, s: Site)
    requires |code.keep| == |code.ops| && |target| == |code.ops| + 1
  {
    && Shaped(code, s) && code.keep[s.i3]
    && DefBefore(code.ops, code.keep, target, s.i3, Outer(code, s)) == Some(s.i2)
    && DefBefore(code.ops, code.keep, target, s.i2, Inner(code, s)) == Some(s.i1)
  }

  /** Nothing kept in the stretch touches the arrays or what they are built from. */
  method StretchHarmless(code: Code, s: Site) returns (ok: bool)
    requires |code.keep| == |code.ops| && ListsFit(code.ops, code.lists) && Shaped(code, s)
    ensures ok <==> forall j :: s.i1 < j < s.i3 && code.keep[j] && j != s.i2 ==> Harmless(code, s, j)
  {
    hide Harmless, Op.ListFits;
    var j := s.i1 + 1;
    while j < s.i3
      invariant s.i1 < j <= s.i3
      invariant forall k :: s.i1 < k < j && code.keep[k] && k != s.i2 ==> Harmless(code, s, k)
    {
      if code.keep[j] && j != s.i2 && !Harmless(code, s, j) {
        return false;
      }
      j := j + 1;
    }
    return true;
  }

  /** Looks for arrays that the apply at i3 can do without. */
  method FindSite(code: Code, target: seq<bool>, after: set<Reg>, i3: nat) returns (r: Option<Site>)
    requires |code.keep| == |code.ops| && |target| == |code.ops| + 1 && ListsFit(code.ops, code.lists) && i3 < |code.ops|
    ensures r.Some? ==> r.value.i3 == i3 && Fusible(code, target, after, r.value)
    ensures r.None? ==> forall s: Site :: s.i3 == i3 ==> !Fusible(code, target, after, s)
  {
    hide Harmless, Op.ListFits, DefBefore;
    var found := FindArrays(code, target, i3);
    assert forall s: Site :: s.i3 == i3 && Fusible(code, target, after, s) ==> Located(code, target, s);
    r := None;
    if found.None? {
      return;
    }
    var s := found.value;
    var call, ra, rb, th, elems := code.ops[i3], Outer(code, s), Inner(code, s), Receiver(code, s), Elements(code, s);
    if ra >= TRACKED || rb >= TRACKED || ra == rb || th == ra || th == rb || ra in [call.f, call.t] || rb in [call.f, call.t] {
      return;
    }
    if !(after !! {ra, rb}) || (exists r :: r in elems && (r >= TRACKED || r == ra || r == rb)) || th >= TRACKED {
      return;
    }
    var harmless := StretchHarmless(code, s);
    if harmless {
      r := Some(s);
    }
  }

  lemma Fits(code: Code, i: nat)
    requires ListsFit(code.ops, code.lists) && i < |code.ops| && code.ops[i].Array?
    ensures code.ops[i].a + code.ops[i].count <= |code.lists|
  {
  }

  /** No apply that could be fused was passed over: none at i3, in the code as it was by then. */
  ghost predicate Thorough(live: seq<set<Reg>>, target: seq<bool>, codes: seq<Code>, sites: seq<Site>, i3: nat)
    requires |codes| == |sites| + 1
  {
    forall k :: 0 <= k <= |sites| && Between(sites, k, i3) ==> NoneFusible(codes[k], target, live, i3)
  }

  /** The first k sites lie before i3, and the others behind it. */
  predicate Between(sites: seq<Site>, k: nat, i3: nat)
    requires k <= |sites|
  {
    (k > 0 ==> sites[k - 1].i3 < i3) && (k < |sites| ==> i3 < sites[k].i3)
  }

  ghost predicate NoneFusible(code: Code, target: seq<bool>, live: seq<set<Reg>>, i3: nat) {
    forall s: Site :: s.i3 == i3 ==> NotFusible(code, target, live, s)
  }

  predicate NotFusible(code: Code, target: seq<bool>, live: seq<set<Reg>>, s: Site) {
    && |code.keep| == |code.ops| && |target| == |code.ops| + 1 && |live| == |code.ops| + 2 && ListsFit(code.ops, code.lists)
    && s.i3 < |code.ops| && !Fusible(code, target, live[s.i3 + 1] + HandlerLive(code.pcs, live, |code.ops|), s)
  }

  lemma ThoroughGrows(live: seq<set<Reg>>, target: seq<bool>, codes: seq<Code>, sites: seq<Site>, code: Code, s: Site, i3: nat)
    requires |codes| == |sites| + 1 && Thorough(live, target, codes, sites, i3) && i3 < s.i3
    ensures Thorough(live, target, codes + [code], sites + [s], i3)
  {
    hide NoneFusible;
    var codes', sites' := codes + [code], sites + [s];
    forall k | 0 <= k <= |sites'| && Between(sites', k, i3) ensures NoneFusible(codes'[k], target, live, i3) {
      assert k < |sites'| && codes'[k] == codes[k];
      assert k < |sites| ==> sites'[k] == sites[k];
      assert k > 0 ==> sites'[k - 1] == sites[k - 1];
      assert Between(sites, k, i3);
    }
  }

  lemma ThoroughHere(live: seq<set<Reg>>, target: seq<bool>, codes: seq<Code>, sites: seq<Site>, i3: nat)
    requires Series(live, target, codes, sites) && |codes| == |sites| + 1
    requires |sites| > 0 ==> sites[|sites| - 1].i3 < i3
    requires NoneFusible(codes[|sites|], target, live, i3)
    ensures Thorough(live, target, codes, sites, i3)
  {
    hide NoneFusible;
    forall k | 0 <= k <= |sites| && Between(sites, k, i3) ensures NoneFusible(codes[k], target, live, i3) {
      if k < |sites| {
        SitesRise(live, target, codes, sites, k, |sites| - 1);
      }
    }
  }

  lemma {:induction false} SitesRise(live: seq<set<Reg>>, target: seq<bool>, codes: seq<Code>, sites: seq<Site>, j: nat, k: nat)
    requires Series(live, target, codes, sites) && j <= k < |sites|
    ensures sites[j].i3 <= sites[k].i3
    decreases k
  {
    hide Fusible, HandlerLive, Fused, Op.ListFits;
    if j < k {
      SitesRise(live, target, codes, sites, j, k - 1);
      assert SeriesAt(live, target, codes, sites, k);
    }
  }

  lemma JustFused(live: seq<set<Reg>>, target: seq<bool>, codes: seq<Code>, sites: seq<Site>, i3: nat)
    requires Series(live, target, codes, sites) && |codes| == |sites| + 1 && |sites| > 0 && sites[|sites| - 1].i3 == i3
    ensures Thorough(live, target, codes, sites, i3)
  {
    hide NoneFusible;
    forall k | 0 <= k <= |sites| ensures !Between(sites, k, i3) {
      if k < |sites| {
        SitesRise(live, target, codes, sites, k, |sites| - 1);
      }
    }
  }

  /** Fuses every apply that can be, front to back, in place. */
  method FuseApply(ops: array<Op>, keep: array<bool>, lists: seq<Reg>, live: seq<set<Reg>>, hl: set<Reg>, target: seq<bool>,
                   pcs: seq<(nat, nat)>)
    returns (ghost codes: seq<Code>, ghost sites: seq<Site>)
    requires keep.Length == ops.Length && |target| == ops.Length + 1 && |live| == ops.Length + 2
    requires ListsFit(ops[..], lists) && hl == HandlerLive(pcs, live, ops.Length)
    modifies ops, keep
    ensures Series(live, target, codes, sites) && |codes| == |sites| + 1
    ensures forall i3 :: 0 <= i3 < ops.Length ==> Thorough(live, target, codes, sites, i3)
    ensures codes[0] == Code(old(ops[..]), lists, pcs, old(keep[..]))
    ensures codes[|sites|] == Code(ops[..], lists, pcs, keep[..])
  {
    hide Fusible, HandlerLive, Op.ListFits, Thorough, SeriesAt;
    codes, sites := [Code(ops[..], lists, pcs, keep[..])], [];
    for i3 := 0 to ops.Length
      invariant Series(live, target, codes, sites) && |codes| == |sites| + 1
      invariant |sites| > 0 ==> sites[|sites| - 1].i3 < i3
      invariant forall j :: 0 <= j < i3 ==> Thorough(live, target, codes, sites, j)
      invariant codes[0] == Code(old(ops[..]), lists, pcs, old(keep[..]))
      invariant codes[|sites|] == Code(ops[..], lists, pcs, keep[..]) && ListsFit(ops[..], lists)
    {
      var code := Code(ops[..], lists, pcs, keep[..]);
      var out := live[i3 + 1] + hl;
      var found := FindSite(code, target, out, i3);
      if found.Some? {
        var s := found.value;
        FusibleShaped(code, target, out, s);
        ops[i3] := ApplyL(ops[i3].d, ops[i3].f, ops[i3].t, Receiver(code, s), ops[s.i1].a, ops[s.i1].count);
        keep[s.i1] := false;
        keep[s.i2] := false;
        FusedLists(code, s);
        SeriesGrows(live, target, codes, sites, s);
        forall j | 0 <= j < i3 ensures Thorough(live, target, codes + [Fused(code, s)], sites + [s], j) {
          ThoroughGrows(live, target, codes, sites, Fused(code, s), s, j);
        }
        codes, sites := codes + [Fused(code, s)], sites + [s];
        JustFused(live, target, codes, sites, i3);
      } else {
        assert NoneFusible(code, target, live, i3);
        ThoroughHere(live, target, codes, sites, i3);
      }
    }
  }

  lemma FusibleShaped(code: Code, target: seq<bool>, after: set<Reg>, s: Site)
    requires |code.keep| == |code.ops| && |target| == |code.ops| + 1 && ListsFit(code.ops, code.lists)
    requires Fusible(code, target, after, s)
    ensures Shaped(code, s)
  {
  }

  lemma FusedLists(code: Code, s: Site)
    requires Shaped(code, s) && |code.keep| == |code.ops| && ListsFit(code.ops, code.lists)
    ensures ListsFit(Fused(code, s).ops, code.lists)
  {
  }

  lemma SeriesGrows(live: seq<set<Reg>>, target: seq<bool>, codes: seq<Code>, sites: seq<Site>, s: Site)
    requires Series(live, target, codes, sites) && (|sites| > 0 ==> sites[|sites| - 1].i3 < s.i3)
    requires var code := codes[|sites|];
             && |code.keep| == |code.ops| && |target| == |code.ops| + 1 && |live| == |code.ops| + 2
             && ListsFit(code.ops, code.lists) && s.i3 < |code.ops|
             && Fusible(code, target, live[s.i3 + 1] + HandlerLive(code.pcs, live, |code.ops|), s)
    ensures Shaped(codes[|sites|], s)
    ensures Series(live, target, codes + [Fused(codes[|sites|], s)], sites + [s])
  {
    hide HandlerLive, Op.ListFits, Fused, Fusible, SeriesAt;
    var code, n := codes[|sites|], |sites|;
    FusibleShaped(code, target, live[s.i3 + 1] + HandlerLive(code.pcs, live, |code.ops|), s);
    var codes', sites' := codes + [Fused(code, s)], sites + [s];
    LastOfSeries(live, target, codes', sites', n);
    forall k | 0 <= k < |sites'| ensures SeriesAt(live, target, codes', sites', k) {
      if k < n {
        assert SeriesAt(live, target, codes, sites, k);
        EarlierInSeries(live, target, codes, sites, codes', sites', k);
      }
    }
  }

  lemma LastOfSeries(live: seq<set<Reg>>, target: seq<bool>, codes: seq<Code>, sites: seq<Site>, n: nat)
    requires |codes| == n + 2 && |sites| == n + 1
    requires var code, s := codes[n], sites[n];
             && |code.keep| == |code.ops| && |target| == |code.ops| + 1 && |live| == |code.ops| + 2
             && ListsFit(code.ops, code.lists) && s.i3 < |code.ops| && Shaped(code, s)
             && Fusible(code, target, live[s.i3 + 1] + HandlerLive(code.pcs, live, |code.ops|), s)
             && codes[n + 1] == Fused(code, s) && (n > 0 ==> sites[n - 1].i3 < s.i3)
    ensures SeriesAt(live, target, codes, sites, n)
  {
    hide Fusible, HandlerLive, Fused, Shaped, Op.ListFits;
  }

  lemma EarlierInSeries(live: seq<set<Reg>>, target: seq<bool>, codes: seq<Code>, sites: seq<Site>, codes': seq<Code>, sites': seq<Site>, k: nat)
    requires |codes| == |sites| + 1 && |codes'| == |sites'| + 1 && k < |sites| < |sites'|
    requires codes <= codes' && sites <= sites' && SeriesAt(live, target, codes, sites, k)
    ensures SeriesAt(live, target, codes', sites', k)
  {
    hide Fusible, HandlerLive, Fused, Op.ListFits;
    assert codes'[k] == codes[k] && codes'[k + 1] == codes[k + 1] && sites'[k] == sites[k];
    assert k > 0 ==> sites'[k - 1] == sites[k - 1];
  }

  // ----- The whole pass -----

  /** What the passes found on the way. `live` is None when liveness was not used: too many
      registers, or no fixpoint within the rounds allowed. */
  datatype Passes = Passes(live: Option<seq<set<Reg>>>, target: seq<bool>, codes: seq<Code>, sites: seq<Site>,
                           threaded: seq<Op>, left: seq<bool>, fin: seq<nat>)

  /** `now` is what the passes make of `full`. */
  ghost predicate Optimized(full: Code, entry: nat, p: Passes, now: Code, entry': nat) {
    && |p.codes| == |p.sites| + 1
    && Rewritten(p.codes[|p.sites|], p.threaded, p.left, p.fin, now) && entry' == Place(p.left, p.fin, entry)
    && (p.live.None? ==> p.codes == [full] && p.sites == [])
    && (p.live.Some? ==>
          && Masked(full, p.codes[0], p.live.value)
          && MarksTargets(full.ops, full.pcs, entry, p.target)
          && Series(p.live.value, p.target, p.codes, p.sites))
  }

  /** Nothing is left undone: liveness is used whenever all registers are tracked and the sweeps settle, it is
      the least there is, and every apply that can be fused is. */
  ghost predicate Complete(full: Code, nslots: nat, p: Passes) {
    ListsFit(full.ops, full.lists) &&
    var nodes := NodesOf(full.ops, full.lists);
    && (p.live.Some? <==> nslots <= TRACKED && Settles(nodes, full.pcs))
    && (p.live.Some? ==>
          && Least(nodes, full.pcs, p.live.value) && Series(p.live.value, p.target, p.codes, p.sites)
          && |p.codes| == |p.sites| + 1 && forall i3 :: 0 <= i3 < |full.ops| ==> Thorough(p.live.value, p.target, p.codes, p.sites, i3))
  }

  /** Some store to this register is left out. */
  predicate Misses(code: Code, r: Reg) {
    exists i :: 0 <= i < |code.ops| && i < |code.keep| && !code.keep[i] && r in Tracked(code.ops[i].Def())
  }

  /** The registers of which none is. */
  function Carried(code: Code): (spare: set<Reg>)
    ensures Spares(code, spare)
  {
    set r: Reg | r < TRACKED && !Misses(code, r)
  }

  /** What liveness must not have been wrong about: no throwing op writes a register that a handler needs and
      that some store to was left out, and no fused call had a way out to where its arrays are needed. */
  ghost predicate Hypotheses(full: Code, p: Passes) {
    p.live.Some? ==>
      && |full.ops| <= |p.live.value| && |p.codes| == |p.sites| + 1
      && HandlerSafe(full.ops, full.pcs, p.live.value, Carried(p.codes[|p.sites|]))
      && AllExitsSafe(p.live.value, p.codes, p.sites)
  }

  method Optimize(ops0: seq<Op>, lists: seq<Reg>, nslots: nat, pcs0: seq<(nat, nat)>, entry0: nat)
    returns (ops: seq<Op>, pcs: seq<(nat, nat)>, entry: nat, ghost p: Passes)
    requires Whole(ops0, lists, pcs0).Fits(nslots) && |ops0| <= NONE
    ensures Optimized(Whole(ops0, lists, pcs0), entry0, p, Whole(ops, lists, pcs), entry)
    ensures Complete(Whole(ops0, lists, pcs0), nslots, p)
  {
    hide Solution, UnderAll, Settles, KeepsLive, HandlerLive, Series, Thorough, MarksTargets, Compacted, Threaded, Pruned, PcsPlaced, Code.Fits, ListsFit;
    var n := |ops0|;
    var a := new Op[n](i requires 0 <= i < n => ops0[i]);
    var keep := new bool[n](_ => true);
    ghost var full := Whole(ops0, lists, pcs0);
    ListsFitFromFits(full, nslots);
    assert a[..] == ops0 && keep[..] == full.keep;
    p := Passes(None, [], [full], [], [], [], []);
    if nslots <= TRACKED {
      var nodes := NodesOf(ops0, lists);
      var found := DeadStores(nodes, pcs0, keep);
      if found.Some? {
        var (live, hl) := found.value;
        ghost var masked := Code(ops0, lists, pcs0, keep[..]);
        MaskedByDeadStores(full, masked, live);
        var target := MarkTargets(ops0, pcs0, entry0);
        MarkedLength(ops0, pcs0, entry0, target);
        ghost var codes, sites := FuseApply(a, keep, lists, live, hl, target, pcs0);
        SeriesLength(live, target, codes, sites);
        p := Passes(Some(live), target, codes, sites, [], [], []);
      } else {
        assert keep[..] == full.keep;
      }
    }
    var threaded := ThreadJumps(a[..], keep[..]);
    var left, fin := PruneJumps(threaded, keep[..]);
    PrunedTable(threaded, keep[..], left, fin);
    PrunedLength(threaded, keep[..], left, fin);
    ops, pcs, entry := Compact(threaded, left, fin, pcs0, entry0);
    p := p.(threaded := threaded, left := left, fin := fin);
    assert p.codes[|p.sites|] == Code(a[..], lists, pcs0, keep[..]);
  }

  lemma ListsFitFromFits(code: Code, nregs: nat)
    requires code.Fits(nregs)
    ensures ListsFit(code.ops, code.lists)
  {
    forall i | 0 <= i < |code.ops| ensures code.ops[i].ListFits(code.lists) {
      assert code.ops[i].WithinRegs(code.lists, nregs);
    }
  }

  lemma MaskedByDeadStores(full: Code, masked: Code, live: seq<set<Reg>>)
    requires |full.ops| <= NONE && |full.keep| == |masked.keep| == |full.ops| && ListsFit(full.ops, full.lists)
    requires masked == full.(keep := masked.keep) && forall i :: 0 <= i < |full.ops| ==> full.keep[i]
    requires Solution(NodesOf(full.ops, full.lists), full.pcs, live)
    requires KeepsLive(NodesOf(full.ops, full.lists), full.pcs, live, masked.keep)
    ensures Masked(full, masked, live) && |live| == |full.ops| + 2
  {
  }

  lemma SeriesLength(live: seq<set<Reg>>, target: seq<bool>, codes: seq<Code>, sites: seq<Site>)
    requires Series(live, target, codes, sites)
    ensures |codes| == |sites| + 1
  {
  }

  lemma PrunedLength(threaded: seq<Op>, keep: seq<bool>, left: seq<bool>, fin: seq<nat>)
    requires Pruned(threaded, keep, left, fin)
    ensures |left| == |threaded| == |keep|
  {
  }

  // ----- The theorem -----

  lemma {:induction false} CountOnto(left: seq<bool>, n: nat, j: nat) returns (i: nat)
    requires n <= |left| && j < Count(left, n)
    ensures i < n && left[i] && Count(left, i) == j
  {
    if left[n - 1] && j == Count(left, n - 1) {
      i := n - 1;
    } else {
      i := CountOnto(left, n - 1, j);
    }
  }

  lemma RewrittenFits(source: Code, threaded: seq<Op>, left: seq<bool>, fin: seq<nat>, code: Code, nregs: nat)
    requires Rewritten(source, threaded, left, fin, code) && source.Fits(nregs)
    ensures code.Fits(nregs)
  {
    hide Op.Retarget, Eff, Op.WithinRegs;
    forall j | 0 <= j < |code.ops| ensures code.ops[j].WithinRegs(code.lists, nregs) {
      var i := CountOnto(left, |left|, j);
      NewOp(source, threaded, left, fin, code, i);
      PlaceAfter(left, fin, threaded, source.keep, i);
      RetargetFits(source.ops[i], Threader(source.ops, source.keep), source.lists, nregs);
      RetargetFits(source.ops[i].Retarget(Threader(source.ops, source.keep)), Placer(left, fin), source.lists, nregs);
    }
  }

  lemma RetargetFits(op: Op, f: nat -> nat, lists: seq<Reg>, nregs: nat)
    requires op.WithinRegs(lists, nregs)
    ensures op.Retarget(f).WithinRegs(lists, nregs)
  {
    hide Op.Retarget, Op.Reads, Op.HasDest;
    SameReads(op, f, lists);
  }

  /** Control can start here: at the entry, or at a block. */
  predicate Starts(pcs: seq<(nat, nat)>, entry: nat, start: nat) {
    start == entry || exists i :: 0 <= i < |pcs| && pcs[i].1 == start
  }

  /** Dead stores and fusion: before and after, the run ends at the same step, the same way. */
  lemma MaskingPreserves<V, W>(h: Host<V, W>, full: Code, entry: nat, p: Passes, now: Code, entry': nat,
                               start: nat, regs: seq<V>, w: W, n: nat)
    requires Optimized(full, entry, p, now, entry') && Hypotheses(full, p)
    requires full.Fits(|regs|) && (p.live.Some? ==> |regs| <= TRACKED) && Starts(full.pcs, entry, start)
    ensures p.codes[|p.sites|].Fits(|regs|)
    ensures var t, u := Run(h, full, At(start, regs, w), n), Run(h, p.codes[|p.sites|], At(start, regs, w), n);
            (t.Ended? || u.Ended?) ==> t == u
  {
    hide Rewritten, Masked, HandlerSafe, AllExitsSafe, Series, Covers, Code.Fits, Spares, MarksTargets, Together;
    if p.live.Some? {
      var live, spare := p.live.value, Carried(p.codes[|p.sites|]);
      MaskedShape(full, p.codes[0], live);
      FitsShape(full, p.codes[0], |regs|);
      SparesFirst(live, p.target, p.codes, p.sites, spare);
      DeadStoresPreserve(h, full, p.codes[0], live, spare, At(start, regs, w), n);
      TogetherEnds(Widen(live, spare), |full.ops|, Run(h, full, At(start, regs, w), n), Run(h, p.codes[0], At(start, regs, w), n));
      MaskedCovers(full, p.codes[0], live, spare);
      WideSeries(live, p.target, p.codes, p.sites, spare);
      StartMarked(full, entry, p.target, start);
      SeriesPreserves(h, Widen(live, spare), p.target, entry, start, p.codes, p.sites, |p.sites|, regs, w, n);
    }
  }

  lemma StartMarked(full: Code, entry: nat, target: seq<bool>, start: nat)
    requires MarksTargets(full.ops, full.pcs, entry, target) && Starts(full.pcs, entry, start)
    ensures start < |target| ==> target[start]
  {
  }

  lemma TogetherEnds<V, W>(live: seq<set<Reg>>, n: nat, s: State<V, W>, t: State<V, W>)
    requires n <= |live| && Together(live, n, s, t)
    ensures s.Ended? || t.Ended? ==> s == t
  {
  }

  // ----- Registers of which no store is left out -----

  /** What is left out once stays left out, and no op comes to write another register. */
  ghost predicate LeavesOut(code: Code, later: Code) {
    && |code.ops| == |code.keep| == |later.ops| == |later.keep|
    && forall i :: 0 <= i < |code.ops| ==> later.ops[i].Def() == code.ops[i].Def() && (!code.keep[i] ==> !later.keep[i])
  }

  lemma FusedLeavesOut(code: Code, target: seq<bool>, after: set<Reg>, s: Site)
    requires |code.keep| == |code.ops| && |target| == |code.ops| + 1 && ListsFit(code.ops, code.lists) && Fusible(code, target, after, s)
    ensures Shaped(code, s) && LeavesOut(code, Fused(code, s))
    ensures !Fused(code, s).keep[s.i1] && !Fused(code, s).keep[s.i2]
    ensures code.ops[s.i1].Def() == Some(Inner(code, s)) && code.ops[s.i2].Def() == Some(Outer(code, s))
  {
    hide Harmless, Op.ListFits;
    assert Fused(code, s).ops[s.i3].Def() == code.ops[s.i3].Def();
  }

  lemma {:induction false} SeriesLeavesOut(live: seq<set<Reg>>, target: seq<bool>, codes: seq<Code>, sites: seq<Site>, j: nat, k: nat)
    requires Series(live, target, codes, sites) && j <= k <= |sites| && |codes[j].ops| == |codes[j].keep|
    ensures LeavesOut(codes[j], codes[k])
    decreases k
  {
    hide Fusible, HandlerLive, Fused, Op.ListFits, Op.Def;
    if j < k {
      SeriesLeavesOut(live, target, codes, sites, j, k - 1);
      assert SeriesAt(live, target, codes, sites, k - 1);
      var code, s := codes[k - 1], sites[k - 1];
      FusedLeavesOut(code, target, live[s.i3 + 1] + HandlerLive(code.pcs, live, |code.ops|), s);
    }
  }

  lemma SparesFirst(live: seq<set<Reg>>, target: seq<bool>, codes: seq<Code>, sites: seq<Site>, spare: set<Reg>)
    requires Series(live, target, codes, sites) && |codes[0].ops| == |codes[0].keep| && Spares(codes[|sites|], spare)
    ensures Spares(codes[0], spare)
  {
    hide Series, Op.Def;
    SeriesLeavesOut(live, target, codes, sites, 0, |sites|);
  }

  lemma SpareAtSite(live: seq<set<Reg>>, target: seq<bool>, codes: seq<Code>, sites: seq<Site>, spare: set<Reg>, k: nat)
    requires Series(live, target, codes, sites) && k < |sites| && Spares(codes[|sites|], spare)
    ensures Shaped(codes[k], sites[k])
    ensures Outer(codes[k], sites[k]) < TRACKED ==> Outer(codes[k], sites[k]) !in spare
    ensures Inner(codes[k], sites[k]) < TRACKED ==> Inner(codes[k], sites[k]) !in spare
  {
    hide Fusible, HandlerLive, Op.ListFits;
    assert SeriesAt(live, target, codes, sites, k);
    var code, s, fin := codes[k], sites[k], codes[|sites|];
    FusedLeavesOut(code, target, live[s.i3 + 1] + HandlerLive(code.pcs, live, |code.ops|), s);
    SeriesLeavesOut(live, target, codes, sites, k + 1, |sites|);
    assert !fin.keep[s.i1] && fin.ops[s.i1].Def() == Some(Inner(code, s));
    assert !fin.keep[s.i2] && fin.ops[s.i2].Def() == Some(Outer(code, s));
  }

  /** The checks of fusion pass as well if the spare registers count as live everywhere. */
  lemma WideSeries(live: seq<set<Reg>>, target: seq<bool>, codes: seq<Code>, sites: seq<Site>, spare: set<Reg>)
    requires Series(live, target, codes, sites) && AllExitsSafe(live, codes, sites) && Spares(codes[|sites|], spare)
    ensures Series(Widen(live, spare), target, codes, sites) && AllExitsSafe(Widen(live, spare), codes, sites)
  {
    hide SeriesAt, ExitsSafe, Spares, Shaped;
    forall k | 0 <= k < |sites| ensures SeriesAt(Widen(live, spare), target, codes, sites, k) {
      assert SeriesAt(live, target, codes, sites, k);
      SpareAtSite(live, target, codes, sites, spare, k);
      WideSite(live, target, codes, sites, spare, k);
    }
    forall k | 0 <= k < |sites| ensures Shaped(codes[k], sites[k]) && ExitsSafe(codes[k], Widen(live, spare), sites[k]) {
      assert SeriesAt(live, target, codes, sites, k);
      SpareAtSite(live, target, codes, sites, spare, k);
      TrackedSite(live, target, codes, sites, k);
      WideExits(codes[k], live, sites[k], spare);
    }
  }

  lemma TrackedSite(live: seq<set<Reg>>, target: seq<bool>, codes: seq<Code>, sites: seq<Site>, k: nat)
    requires |codes| == |sites| + 1 && k < |sites| && SeriesAt(live, target, codes, sites, k)
    ensures Shaped(codes[k], sites[k]) && Outer(codes[k], sites[k]) < TRACKED && Inner(codes[k], sites[k]) < TRACKED
  {
    hide HandlerLive, Op.ListFits, Harmless;
  }

  lemma WideSite(live: seq<set<Reg>>, target: seq<bool>, codes: seq<Code>, sites: seq<Site>, spare: set<Reg>, k: nat)
    requires |codes| == |sites| + 1 && k < |sites| && SeriesAt(live, target, codes, sites, k) && Shaped(codes[k], sites[k])
    requires Outer(codes[k], sites[k]) < TRACKED ==> Outer(codes[k], sites[k]) !in spare
    requires Inner(codes[k], sites[k]) < TRACKED ==> Inner(codes[k], sites[k]) !in spare
    ensures SeriesAt(Widen(live, spare), target, codes, sites, k)
  {
    hide HandlerLive, Op.ListFits, Harmless, Fused;
    WideHandlers(codes[k].pcs, live, spare, |codes[k].ops|);
  }

  lemma WideExits(code: Code, live: seq<set<Reg>>, s: Site, spare: set<Reg>)
    requires Shaped(code, s) && |code.ops| <= |live| && |code.keep| == |code.ops| && ExitsSafe(code, live, s)
    requires Outer(code, s) !in spare && Inner(code, s) !in spare
    ensures ExitsSafe(code, Widen(live, spare), s)
  {
    hide Op.Targets;
    forall j | s.i1 < j < s.i3 && code.keep[j] ensures ExitsSafeAt(code, Widen(live, spare), s, j) {
      assert ExitsSafeAt(code, live, s, j);
    }
  }

  lemma FitsShape(full: Code, less: Code, nregs: nat)
    requires full.Fits(nregs) && |less.keep| == |full.ops| && full.ops == less.ops && full.lists == less.lists
    ensures less.Fits(nregs)
  {
  }

  /** The optimizer preserves meaning. From the entry or any block address, on every host and every
      initial registers and world: the run ends with a value, an exception, a fault and a world
      before the passes exactly when it ends with the same after them. */
  lemma OptimizePreserves<V, W>(h: Host<V, W>, full: Code, entry: nat, p: Passes, now: Code, entry': nat,
                                start: nat, regs: seq<V>, w: W, how: End<V>, w': W)
    requires Optimized(full, entry, p, now, entry') && Hypotheses(full, p)
    requires full.Fits(|regs|) && (p.live.Some? ==> |regs| <= TRACKED) && Starts(full.pcs, entry, start)
    ensures Table(p.left, p.fin) && now.Fits(|regs|)
    ensures EndsWith(h, full, At(start, regs, w), how, w')
       <==> EndsWith(h, now, At(Place(p.left, p.fin, start), regs, w), how, w')
  {
    hide Rewritten, Masked, HandlerSafe, AllExitsSafe, Series, Code.Fits, Place;
    var fused := p.codes[|p.sites|];
    MaskingPreserves(h, full, entry, p, now, entry', start, regs, w, 0);
    RewrittenFits(fused, p.threaded, p.left, p.fin, now, |regs|);
    RewrittenParts(fused, p.threaded, p.left, p.fin, now);
    var s, t := At(start, regs, w), At(Place(p.left, p.fin, start), regs, w);
    if EndsWith(h, full, s, how, w') {
      var n: nat :| Run(h, full, s, n) == Ended(how, w');
      MaskingPreserves(h, full, entry, p, now, entry', start, regs, w, n);
      var m := OldEndsNewEnds(h, fused, p.threaded, p.left, p.fin, now, s, t, n, how, w');
    }
    if EndsWith(h, now, t, how, w') {
      var n: nat :| Run(h, now, t, n) == Ended(how, w');
      NewEndsOldEnds(h, fused, p.threaded, p.left, p.fin, now, s, t, n, how, w');
      var m: nat :| Run(h, fused, s, m) == Ended(how, w');
      MaskingPreserves(h, full, entry, p, now, entry', start, regs, w, m);
    }
  }

  /** Where the new code's block addresses point. */
  lemma StartsMove(full: Code, entry: nat, p: Passes, now: Code, entry': nat, pc: nat)
    requires Optimized(full, entry, p, now, entry')
    ensures Table(p.left, p.fin) && entry' == Place(p.left, p.fin, entry)
    ensures FindPc(now.pcs, pc) == match FindPc(full.pcs, pc) case Some(t) => Some(Place(p.left, p.fin, t)) case None => None
  {
    hide Place, Masked, Series, MarksTargets;
    var fused := p.codes[|p.sites|];
    RewrittenParts(fused, p.threaded, p.left, p.fin, now);
    if p.live.Some? {
      MaskedShape(full, p.codes[0], p.live.value);
      SeriesPcs(p.live.value, p.target, p.codes, p.sites, |p.sites|);
    }
    FindPlaced(p.left, p.fin, full.pcs, now.pcs, pc);
  }

  lemma {:induction false} SeriesPcs(live: seq<set<Reg>>, target: seq<bool>, codes: seq<Code>, sites: seq<Site>, k: nat)
    requires Series(live, target, codes, sites) && k <= |sites|
    ensures codes[k].pcs == codes[0].pcs
  {
    hide Fusible, HandlerLive;
    if k > 0 {
      SeriesPcs(live, target, codes, sites, k - 1);
      assert SeriesAt(live, target, codes, sites, k - 1);
    }
  }
}
