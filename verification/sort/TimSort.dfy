/** The sort itself: runs are made, pushed, and merged as the collapse rule asks. */
module TimSort {
  import opened Basics
  import opened StableOrder
  import opened Comparators
  import opened Gallop
  import opened Merging
  import opened Runs
  import opened RunStack
  import MergeLow
  import MergeHigh

  const SORT_MIN_MERGE: nat := 64

  /** Some power of two of runs of length m covers n, and of length m-1 would not. */
  ghost predicate JustCovers(m: int, n: nat) {
    exists k: nat :: m * Power2(k) >= n && (n > 0 ==> (m - 1) * Power2(k) < n)
  }

  /** The least run length: n itself when short; otherwise 32 to 64 such that n is just covered by
      a power of two of such runs. */
  method MinRunLength(n0: nat) returns (m: nat)
    ensures n0 > 0 ==> m > 0
    ensures n0 < SORT_MIN_MERGE ==> m == n0
    ensures n0 >= SORT_MIN_MERGE ==> SORT_MIN_MERGE / 2 <= m <= SORT_MIN_MERGE
    ensures JustCovers(m, n0)
  {
    var n, r := n0, 0;
    ghost var k: nat := 0;
    assert n0 * Power2(0) == n0;
    while n >= SORT_MIN_MERGE
      invariant r <= 1 && (n0 < SORT_MIN_MERGE ==> k == 0) && (k > 0 ==> n >= SORT_MIN_MERGE / 2)
      invariant k == 0 ==> n == n0 && r == 0
      invariant n * Power2(k) <= n0 && (r == 0 ==> n0 == n * Power2(k)) && (r == 1 ==> n * Power2(k) < n0 < (n + 1) * Power2(k))
    {
      var bit := n % 2;
      Halved(n, n0, k, r);
      r := if bit == 1 then 1 else r;
      n := n / 2;
      k := k + 1;
    }
    m := n + r;
    assert m * Power2(k) >= n0 && (n0 > 0 ==> (m - 1) * Power2(k) < n0);
  }

  lemma Halved(n: nat, n0: nat, k: nat, r: nat)
    requires n * Power2(k) <= n0 && (r == 0 ==> n0 == n * Power2(k)) && (r == 1 ==> n * Power2(k) < n0 < (n + 1) * Power2(k))
    requires r <= 1
    ensures var r' := if n % 2 == 1 then 1 else r;
            && n / 2 * Power2(k + 1) <= n0 && (r' == 0 ==> n0 == n / 2 * Power2(k + 1))
            && (r' == 1 ==> n / 2 * Power2(k + 1) < n0 < (n / 2 + 1) * Power2(k + 1))
  {
    var p, h := Power2(k), n / 2;
    assert Power2(k + 1) == 2 * p;
    assert n == 2 * h + n % 2 && p > 0;
    assert h * (2 * p) == 2 * h * p && (h + 1) * (2 * p) == 2 * h * p + 2 * p;
    assert n * p == 2 * h * p + (n % 2) * p && (n + 1) * p == n * p + p;
  }

  /** Three sorted parts, no part before an earlier one, are sorted together. */
  lemma GlueSorted<T(!new)>(lt: (T, T) -> bool, p: seq<T>, m: seq<T>, q: seq<T>)
    requires Sorted(lt, p) && Sorted(lt, m) && Sorted(lt, q)
    requires NoneBefore(lt, m, p) && NoneBefore(lt, q, p) && NoneBefore(lt, q, m)
    ensures Sorted(lt, p + m + q)
  {
    var s := p + m + q;
    forall i, j | 0 <= i < j < |s| ensures !lt(s[j], s[i]) {
      var x, y := |p|, |p| + |m|;
      assert s[i] == if i < x then p[i] else if i < y then m[i - x] else q[i - y];
      assert s[j] == if j < x then p[j] else if j < y then m[j - x] else q[j - y];
    }
  }

  /** Galloping in from both ends: the first k of a and all but the first l of b are in place. */
  ghost predicate Trimmed<T(!new)>(lt: (T, T) -> bool, a: seq<T>, b: seq<T>, k: int, l: int) {
    && WeakOrder(lt) && Sorted(lt, a) && Sorted(lt, b) && b != []
    && RightSplit(lt, a, b[0], k) && k < |a| && LeftSplit(lt, b, a[|a| - 1], l)
  }

  lemma TrimmedReady<T(!new)>(lt: (T, T) -> bool, a: seq<T>, b: seq<T>, k: int, l: int)
    requires Trimmed(lt, a, b, k, l)
    ensures 0 < l && Ready(lt, a[k..], b[..l])
  {
    Cotransitive(lt, b[0], a[|a| - 1], a[k]);
    assert a[k..][0] == a[k] && a[k..][|a| - k - 1] == a[|a| - 1];
  }

  lemma TrimmedEnds<T(!new)>(lt: (T, T) -> bool, a: seq<T>, b: seq<T>, k: int, l: int)
    requires Trimmed(lt, a, b, k, l)
    ensures NoneBefore(lt, a[k..] + b[..l], a[..k])
    ensures NoneBefore(lt, b[l..], a[k..] + b[..l])
    ensures NoneBefore(lt, b[l..], a[..k])
  {
    forall i, j | 0 <= i < k && 0 <= j < |b| ensures !lt(b[j], a[i]) {
      if lt(b[j], a[i]) {
        Cotransitive(lt, b[j], b[0], a[i]);
      }
    }
    forall i, j | 0 <= i < |a| && l <= j < |b| ensures !lt(b[j], a[i]) {
      if lt(b[j], a[i]) {
        Cotransitive(lt, b[j], a[|a| - 1], a[i]);
      }
    }
  }

  lemma NoneBeforePerm<T>(lt: (T, T) -> bool, u: seq<T>, v: seq<T>, w: seq<T>)
    requires multiset(u) == multiset(v)
    ensures NoneBefore(lt, u, w) ==> NoneBefore(lt, v, w)
    ensures NoneBefore(lt, w, u) ==> NoneBefore(lt, w, v)
  {
    forall i | 0 <= i < |v| ensures exists j :: 0 <= j < |u| && u[j] == v[i] {
      assert v[i] in multiset(v);
      assert v[i] in u;
    }
  }

  /** Merging the trimmed parts sorts both runs. */
  lemma TrimmedMerge<T(!new)>(lt: (T, T) -> bool, a: seq<T>, b: seq<T>, k: int, l: int, m: seq<T>)
    requires Trimmed(lt, a, b, k, l) && SortOf(lt, true, a[k..] + b[..l], m)
    ensures Sorted(lt, a[..k] + m + b[l..])
  {
    TrimmedEnds(lt, a, b, k, l);
    NoneBeforePerm(lt, a[k..] + b[..l], m, a[..k]);
    NoneBeforePerm(lt, a[k..] + b[..l], m, b[l..]);
    GlueSorted(lt, a[..k], m, b[l..]);
  }

  /** A run that is nowhere after its neighbour needs no merge. */
  lemma InOrder<T(!new)>(lt: (T, T) -> bool, a: seq<T>, b: seq<T>)
    requires WeakOrder(lt) && Sorted(lt, a) && Sorted(lt, b) && b != [] && RightSplit(lt, a, b[0], |a|)
    ensures Sorted(lt, a + b)
  {
    forall i, j | 0 <= i < |a| && 0 <= j < |b| ensures !lt(b[j], a[i]) {
      if lt(b[j], a[i]) {
        Cotransitive(lt, b[j], b[0], a[i]);
      }
    }
    GlueSorted(lt, a, b, []);
    assert a + b + [] == a + b;
  }

  lemma WeakerWithin<T(!new)>(lt: (T, T) -> bool, good: bool, less: bool, s: seq<T>, t: seq<T>, lo: int, hi: int)
    requires SortedWithin(lt, good, s, t, lo, hi) && (less ==> good)
    ensures SortedWithin(lt, less, s, t, lo, hi)
  {
    hide Sorted, SameClasses;
  }

  lemma SliceAcross<T>(s: seq<T>, lo: nat, mid: nat, hi: nat, k: nat, l: nat)
    requires lo + k <= mid && mid + l <= hi <= |s|
    ensures s[lo + k..mid + l] == s[lo..mid][k..] + s[mid..hi][..l]
  {
  }

  /** Where the trimming stops short: nothing to merge on one side, or the two trimmed runs. */
  lemma MergedRuns<T(!new)>(lt: (T, T) -> bool, good: bool, ready: bool, s: seq<T>, t: seq<T>, baseA: nat, baseB: nat, end: nat, k: nat, l: nat)
    requires baseA < baseB < end <= |s| && k < baseB - baseA && l <= end - baseB
    requires good ==> ready && Trimmed(lt, s[baseA..baseB], s[baseB..end], k, l)
    requires SortedWithin(lt, ready, s, t, baseA + k, baseB + l)
    ensures SortedWithin(lt, good, s, t, baseA, end)
  {
    hide Trimmed, Sorted, Rearranged;
    var a, b := s[baseA..baseB], s[baseB..end];
    var lo, hi := baseA + k, baseB + l;
    SelfRearranged(lt, good, s, baseA, end);
    WeakerWithin(lt, ready, good, s, t, lo, hi);
    RearrangedInside(lt, good, s, s, t, baseA, lo, hi, end);
    if good {
      SliceAcross(s, baseA, baseB, end, k, l);
      assert SortOf(lt, true, a[k..] + b[..l], t[lo..hi]);
      TrimmedMerge(lt, a, b, k, l, t[lo..hi]);
      assert t[baseA..lo] == t[..lo][baseA..] == s[..lo][baseA..] == a[..k];
      assert t[hi..end] == t[hi..][..end - hi] == s[hi..][..end - hi] == b[l..];
      assert t[baseA..end] == a[..k] + t[lo..hi] + b[l..];
    }
  }

  lemma Untouched<T(!new)>(lt: (T, T) -> bool, good: bool, s: seq<T>, lo: int, hi: int)
    requires 0 <= lo <= hi <= |s| && !good
    ensures SortedWithin(lt, good, s, s, lo, hi)
  {
  }

  lemma AlreadySorted<T(!new)>(lt: (T, T) -> bool, good: bool, s: seq<T>, lo: int, mid: int, hi: int)
    requires 0 <= lo <= mid < hi <= |s|
    requires good ==> WeakOrder(lt) && Sorted(lt, s[lo..mid]) && Sorted(lt, s[mid..hi]) && RightSplit(lt, s[lo..mid], s[mid], mid - lo)
    ensures SortedWithin(lt, good, s, s, lo, hi)
  {
    SelfRearranged(lt, good, s, lo, hi);
    if good {
      InOrder(lt, s[lo..mid], s[mid..hi]);
      assert s[lo..hi] == s[lo..mid] + s[mid..hi];
    }
  }

  /** Merges runs i and i+1 of the stack: entries are joined, and the cells they cover are sorted. */
  method MergeAt<T(!new)>(w: array<T>, cmp: Comparator<T>, runs: seq<Run>, i: nat, minGallop: nat,
                          ghost end: nat, ghost lt: (T, T) -> bool)
    returns (r: Outcome<nat>, joined: seq<Run>)
    requires Tiles(runs, end) && end <= w.Length
    requires i + 2 == |runs| || i + 3 == |runs|
    requires w.Length <= ISIZE_MAX && 0 < minGallop
    modifies w, cmp
    ensures joined == Joined(runs, i)
    ensures r.Thrown? ==> cmp.Threw()
    ensures r.Ok? ==> 0 < r.value
    ensures r.Ok? ==>
              SortedWithin(lt, cmp.Orders(lt) && Sorted(lt, old(w[runs[i].base..runs[i].End()])) && Sorted(lt, old(w[runs[i + 1].base..runs[i + 1].End()])),
                           old(w[..]), w[..], runs[i].base, runs[i + 1].End())
  {
    var baseA, lenA := runs[i].base, runs[i].len;
    var baseB, lenB := runs[i + 1].base, runs[i + 1].len;
    joined := runs[i := Run(baseA, lenA + lenB)];
    if i + 3 == |joined| {
      joined := joined[i + 1 := joined[i + 2]];
    }
    joined := joined[..|joined| - 1];
    r := MergeNeighbours(w, cmp, baseA, lenA, baseB, lenB, minGallop, lt);
  }

  lemma PartsTrimmed<T>(s: seq<T>, lo: nat, k: nat, m: nat, n: nat, hi: nat)
    requires lo + k <= m && m + n <= hi <= |s|
    ensures s[lo + k..m] == s[lo..m][k..] && s[m..m + n] == s[m..hi][..n]
  {
  }

  method MergeNeighbours<T(!new)>(w: array<T>, cmp: Comparator<T>, baseA0: nat, lenA0: nat, baseB: nat, lenB0: nat, minGallop: nat,
                                  ghost lt: (T, T) -> bool)
    returns (r: Outcome<nat>)
    requires 0 < lenA0 && 0 < lenB0 && baseB == baseA0 + lenA0 && baseB + lenB0 <= w.Length <= ISIZE_MAX
    requires 0 < minGallop
    modifies w, cmp
    ensures r.Thrown? ==> cmp.Threw()
    ensures r.Ok? ==> 0 < r.value
    ensures r.Ok? ==>
              SortedWithin(lt, cmp.Orders(lt) && Sorted(lt, old(w[baseA0..baseB])) && Sorted(lt, old(w[baseB..baseB + lenB0])),
                           old(w[..]), w[..], baseA0, baseB + lenB0)
  {
    hide WeakOrder, SortedWithin, Sorted, Ready, HighSuffix, LowPrefix, RightSplit, LeftSplit;
    ghost var s := w[..];
    ghost var good := cmp.Orders(lt) && Sorted(lt, w[baseA0..baseB]) && Sorted(lt, w[baseB..baseB + lenB0]);
    var key := w[baseB];
    if good {
      SortedSplits(lt, w[baseA0..baseB], key);
    }
    var k :- GallopRight(w[..], cmp, key, baseA0, lenA0, 0, lt);
    var baseA, lenA := baseA0 + k, lenA0 - k;
    if lenA == 0 {
      AlreadySorted(lt, good, s, baseA0, baseB, baseB + lenB0);
      return Ok(minGallop);
    }
    key := w[baseA + lenA - 1];
    if good {
      SortedSplits(lt, w[baseB..baseB + lenB0], key);
    }
    var lenB :- GallopLeft(w[..], cmp, key, baseB, lenB0, lenB0 - 1, lt);
    ghost var a, b := s[baseA0..baseB], s[baseB..baseB + lenB0];
    assert good ==> Trimmed(lt, a, b, k, lenB);
    if good {
      TrimmedReady(lt, a, b, k, lenB);
    }
    ghost var ready := cmp.Orders(lt) && Ready(lt, s[baseA..baseB], s[baseB..baseB + lenB]);
    PartsTrimmed(s, baseA0, k, baseB, lenB, baseB + lenB0);
    assert good ==> ready;
    if lenB == 0 {
      Untouched(lt, good, s, baseA0, baseB + lenB0);
      return Ok(minGallop);
    }
    if lenA <= lenB {
      r := MergeLow.MergeLow(w, cmp, baseA, lenA, baseB, lenB, minGallop, lt);
    } else {
      r := MergeHigh.MergeHigh(w, cmp, baseA, lenA, baseB, lenB, minGallop, lt);
    }
    if r.Ok? {
      MergedRuns(lt, good, ready, s, w[..], baseA0, baseB, baseB + lenB0, k, lenB);
    }
  }

  // ----- The main loop -----

  /** Every pending run is sorted. */
  ghost predicate RunsSorted<T(!new)>(lt: (T, T) -> bool, s: seq<T>, runs: seq<Run>) {
    forall i :: 0 <= i < |runs| ==> runs[i].End() <= |s| && Sorted(lt, s[runs[i].base..runs[i].End()])
  }

  /** Between any two steps: the runs cover 0..end, each is sorted, and nothing was lost. */
  ghost predicate Between<T(!new)>(lt: (T, T) -> bool, good: bool, was: seq<T>, s: seq<T>, runs: seq<Run>, end: nat) {
    && Tiles(runs, end) && end <= |s| == |was|
    && Rearranged(lt, good, was, s)
    && (good ==> RunsSorted(lt, s, runs))
  }

  lemma {:induction false} TilesApart(runs: seq<Run>, end: nat, i: nat, j: nat)
    requires Tiles(runs, end) && i < j < |runs|
    ensures runs[i].End() <= runs[j].base
  {
    if i + 1 < j {
      TilesApart(runs, end, i, j - 1);
    }
    assert runs[j].base == runs[j - 1].End();
  }

  lemma SliceOutside<T>(s: seq<T>, t: seq<T>, lo: int, hi: int, a: int, b: int)
    requires 0 <= lo <= hi <= |s| == |t| && s[..lo] == t[..lo] && s[hi..] == t[hi..]
    requires 0 <= a <= b <= |s| && (b <= lo || hi <= a)
    ensures s[a..b] == t[a..b]
  {
    if b <= lo {
      assert s[a..b] == s[..lo][a..b] && t[a..b] == t[..lo][a..b];
    } else {
      SliceOfSlice(s, hi, a, b, |s|);
      SliceOfSlice(t, hi, a, b, |t|);
    }
  }

  lemma JoinKeepsRunsSorted<T(!new)>(lt: (T, T) -> bool, s: seq<T>, t: seq<T>, runs: seq<Run>, end: nat, i: nat)
    requires Tiles(runs, end) && end <= |s| && i + 1 < |runs| && RunsSorted(lt, s, runs)
    requires SortedWithin(lt, true, s, t, runs[i].base, runs[i + 1].End())
    ensures RunsSorted(lt, t, Joined(runs, i))
  {
    hide Sorted, SameClasses;
    var lo, hi := runs[i].base, runs[i + 1].End();
    var j := Joined(runs, i);
    assert runs[i + 1].base == runs[i].End();
    forall k | 0 <= k < |j| ensures j[k].End() <= |t| && Sorted(lt, t[j[k].base..j[k].End()]) {
      if k < i {
        TilesApart(runs, end, k, i);
        SliceOutside(s, t, lo, hi, runs[k].base, runs[k].End());
      } else if k > i {
        TilesApart(runs, end, i + 1, k + 1);
        assert j[k] == runs[k + 1];
        SliceOutside(s, t, lo, hi, runs[k + 1].base, runs[k + 1].End());
      }
    }
  }

  lemma JoinKeeps<T(!new)>(lt: (T, T) -> bool, good: bool, was: seq<T>, s: seq<T>, t: seq<T>, runs: seq<Run>, end: nat, i: nat)
    requires Between(lt, good, was, s, runs, end) && i + 1 < |runs|
    requires SortedWithin(lt, good, s, t, runs[i].base, runs[i + 1].End())
    ensures Between(lt, good, was, t, Joined(runs, i), end)
  {
    hide Rearranged, RunsSorted, Sorted;
    JoinedTiles(runs, end, i);
    RearrangedWhole(lt, good, s, t, runs[i].base, runs[i + 1].End());
    RearrangedTransitive(lt, good, was, s, t);
    if good {
      JoinKeepsRunsSorted(lt, s, t, runs, end, i);
    }
  }

  lemma PushKeeps<T(!new)>(lt: (T, T) -> bool, good: bool, was: seq<T>, s: seq<T>, t: seq<T>, runs: seq<Run>, end: nat, len: nat)
    requires Between(lt, good, was, s, runs, end) && 0 < len && end + len <= |s|
    requires SortedWithin(lt, good, s, t, end, end + len)
    ensures Between(lt, good, was, t, runs + [Run(end, len)], end + len)
  {
    hide Rearranged, Sorted;
    RearrangedWhole(lt, good, s, t, end, end + len);
    RearrangedTransitive(lt, good, was, s, t);
    if good {
      forall k | 0 <= k < |runs| ensures Sorted(lt, t[runs[k].base..runs[k].End()]) {
        TilesWithin(runs, end, k);
        SliceOutside(s, t, end, end + len, runs[k].base, runs[k].End());
      }
    }
  }

  lemma SlicesOfRun<T(!new)>(lt: (T, T) -> bool, good: bool, was: seq<T>, s: seq<T>, runs: seq<Run>, end: nat, i: nat)
    requires Between(lt, good, was, s, runs, end) && i < |runs|
    ensures runs[i].End() <= |s|
    ensures good ==> Sorted(lt, s[runs[i].base..runs[i].End()])
  {
    TilesWithin(runs, end, i);
  }

  /** One merge on the stack. */
  method MergeStep<T(!new)>(w: array<T>, cmp: Comparator<T>, runs: seq<Run>, i: nat, minGallop: nat,
                            ghost was: seq<T>, ghost end: nat, ghost lt: (T, T) -> bool)
    returns (r: Outcome<nat>, joined: seq<Run>)
    requires Between(lt, cmp.Orders(lt), was, w[..], runs, end)
    requires i + 2 == |runs| || i + 3 == |runs|
    requires w.Length <= ISIZE_MAX && 0 < minGallop
    modifies w, cmp
    ensures joined == Joined(runs, i)
    ensures r.Thrown? ==> cmp.Threw()
    ensures r.Ok? ==> 0 < r.value && Between(lt, cmp.Orders(lt), was, w[..], joined, end)
  {
    hide Rearranged, RunsSorted, Sorted, WeakOrder, SortedWithin;
    ghost var s, good := w[..], cmp.Orders(lt);
    SlicesOfRun(lt, good, was, s, runs, end, i);
    SlicesOfRun(lt, good, was, s, runs, end, i + 1);
    r, joined := MergeAt(w, cmp, runs, i, minGallop, end, lt);
    if r.Ok? {
      JoinKeeps(lt, good, was, s, w[..], runs, end, i);
    }
  }

  lemma JoinedCollapsed(runs: seq<Run>, i: nat)
    requires CollapsedTo(runs, |runs| - 3) && (i + 2 == |runs| || i + 3 == |runs|)
    ensures CollapsedTo(Joined(runs, i), |Joined(runs, i)| - 3)
  {
    var j := Joined(runs, i);
    forall k | 0 <= k <= |j| - 3 ensures RunInvariant(j, k) && Falls(j, k) {
      assert RunInvariant(runs, k) && Falls(runs, k);
      assert j[..k + 1] == runs[..k + 1];
      assert j[k] == j[..k + 1][k] && (k > 0 ==> j[k - 1] == j[..k + 1][k - 1]) && (k > 1 ==> j[k - 2] == j[..k + 1][k - 2]);
    }
  }

  /** Merges until the rule holds again at every entry. The repaired rule looks at the two topmost
      entries it could be broken at; looking at one only would leave it broken further down. */
  method MergeCollapse<T(!new)>(w: array<T>, cmp: Comparator<T>, runs0: seq<Run>, minGallop: nat,
                                ghost was: seq<T>, ghost end: nat, ghost lt: (T, T) -> bool)
    returns (r: Outcome<nat>, runs: seq<Run>)
    requires Between(lt, cmp.Orders(lt), was, w[..], runs0, end)
    requires runs0 != [] && CollapsedTo(runs0, |runs0| - 2)
    requires w.Length <= ISIZE_MAX && 0 < minGallop
    modifies w, cmp
    ensures r.Thrown? ==> cmp.Threw()
    ensures r.Ok? ==> 0 < r.value && Between(lt, cmp.Orders(lt), was, w[..], runs, end)
    ensures r.Ok? ==> runs != [] && Collapsed(runs) && |runs| <= |runs0|
  {
    hide Between, WeakOrder;
    runs := runs0;
    var kept := minGallop;
    while |runs| > 1
      invariant Between(lt, cmp.Orders(lt), was, w[..], runs, end)
      invariant 0 < |runs| <= |runs0| && 0 < kept
      invariant CollapsedTo(runs, |runs| - 3)
      decreases |runs|
    {
      var n := |runs| - 2;
      if !RunInvariant(runs, n + 1) || !RunInvariant(runs, n) {
        if runs[n - 1].len < runs[n + 1].len {
          n := n - 1;
        }
        JoinedCollapsed(runs, n);
        kept, runs :- MergeStep(w, cmp, runs, n, kept, was, end, lt);
      } else if runs[n].len <= runs[n + 1].len {
        JoinedCollapsed(runs, n);
        kept, runs :- MergeStep(w, cmp, runs, n, kept, was, end, lt);
      } else {
        break;
      }
    }
    return Ok(kept), runs;
  }

  /** Merges what is left into one run. */
  method MergeForceCollapse<T(!new)>(w: array<T>, cmp: Comparator<T>, runs0: seq<Run>, minGallop: nat,
                                     ghost was: seq<T>, ghost end: nat, ghost lt: (T, T) -> bool)
    returns (r: Outcome<()>)
    requires Between(lt, cmp.Orders(lt), was, w[..], runs0, end)
    requires runs0 != [] && end == w.Length
    requires w.Length <= ISIZE_MAX && 0 < minGallop
    modifies w, cmp
    ensures r.Thrown? ==> cmp.Threw()
    ensures r.Ok? ==> SortOf(lt, cmp.Orders(lt), was, w[..])
  {
    hide WeakOrder, Rearranged, Sorted, RunsSorted, Between;
    var runs, kept := runs0, minGallop;
    while |runs| > 1
      invariant Between(lt, cmp.Orders(lt), was, w[..], runs, end)
      invariant 0 < |runs| && 0 < kept
      decreases |runs|
    {
      var n := |runs| - 2;
      if n > 0 && runs[n - 1].len < runs[n + 1].len {
        n := n - 1;
      }
      kept, runs :- MergeStep(w, cmp, runs, n, kept, was, end, lt);
    }
    OneRunLeft(lt, cmp.Orders(lt), was, w[..], runs, end);
    return Ok(());
  }

  lemma OneRunLeft<T(!new)>(lt: (T, T) -> bool, good: bool, was: seq<T>, s: seq<T>, runs: seq<Run>, end: nat)
    requires Between(lt, good, was, s, runs, end) && |runs| == 1 && end == |s|
    ensures SortOf(lt, good, was, s)
  {
    hide Sorted;
    assert s[runs[0].base..runs[0].End()] == s;
  }

  lemma ExtendedRun<T(!new)>(lt: (T, T) -> bool, good: bool, s: seq<T>, t: seq<T>, u: seq<T>, lo: int, mid: int, hi: int)
    requires 0 <= lo <= mid <= hi <= |s|
    requires SortedWithin(lt, good, s, t, lo, mid)
    requires SortedWithin(lt, good && Sorted(lt, t[lo..mid]), t, u, lo, hi)
    ensures SortedWithin(lt, good, s, u, lo, hi)
  {
    hide RearrangedWithin, Sorted;
    SelfRearranged(lt, good, s, lo, hi);
    RearrangedInside(lt, good, s, s, t, lo, lo, mid, hi);
    RearrangedInside(lt, good, s, t, u, lo, lo, hi, hi);
  }

  /** The next run: what is there, extended by insertion to the least length when it is short. */
  method NextRun<T(!new)>(w: array<T>, cmp: Comparator<T>, low: nat, remaining: nat, minRun: nat, ghost lt: (T, T) -> bool)
    returns (r: Outcome<nat>)
    requires 0 < remaining && low + remaining <= w.Length && 0 < minRun
    modifies w, cmp
    ensures r.Thrown? ==> cmp.Threw()
    ensures r.Ok? ==> 0 < r.value <= remaining && (r.value >= minRun || r.value == remaining)
    ensures r.Ok? ==> SortedWithin(lt, cmp.Orders(lt), old(w[..]), w[..], low, low + r.value)
  {
    hide WeakOrder, RearrangedWithin, Sorted;
    ghost var s, good := w[..], cmp.Orders(lt);
    var cur :- CountAndMakeRun(w, cmp, low, low + remaining, lt);
    if cur < minRun {
      ghost var t := w[..];
      assert t[low..low + cur] == w[low..low + cur];
      var forced := if minRun < remaining then minRun else remaining;
      var _ :- BinaryInsertionSort(w, cmp, low, low + cur, low + forced, lt);
      ExtendedRun(lt, good, s, t, w[..], low, low + cur, low + forced);
      cur := forced;
    }
    return Ok(cur);
  }

  /** The sort of Array.prototype.sort, section 23.1.3.30 of ECMA-262, on the values it compares.
      Whatever the comparator answers, the sort ends within the array and only permutes it; for a
      consistent comparator the result is sorted and stable. `peak` is the most entries the run
      stack ever held. */
  method TimSort<T(!new)>(w: array<T>, cmp: Comparator<T>, ghost lt: (T, T) -> bool)
    returns (r: Outcome<()>, ghost peak: nat)
    requires w.Length <= ISIZE_MAX
    modifies w, cmp
    ensures r.Thrown? ==> cmp.Threw()
    ensures r.Ok? ==> SortOf(lt, cmp.Orders(lt), old(w[..]), w[..])
    ensures w.Length <= MAX_ARRAY ==> peak <= SORT_RUNS
  {
    hide WeakOrder, SortedWithin, SortOf, Between, Collapsed, CollapsedTo, JustCovers, Rearranged;
    peak := 0;
    ghost var was := w[..];
    var length := w.Length;
    if length < 2 {
      Short(lt, cmp.Orders(lt), was);
      return Ok(()), 0;
    }
    var runs: seq<Run> := [];
    var minGallop := SORT_MIN_GALLOP;
    var remaining: nat := length;
    var low: nat := 0;
    var minRun := MinRunLength(remaining);
    StartBetween(lt, cmp.Orders(lt), was);
    while remaining != 0
      invariant low + remaining == length && 0 < minGallop && w.Length == |was|
      invariant low > 0 ==> runs != []
      invariant Between(lt, cmp.Orders(lt), was, w[..], runs, low)
      invariant Collapsed(runs)
      invariant length <= MAX_ARRAY ==> peak <= SORT_RUNS
      decreases remaining
    {
      ghost var s := w[..];
      var cur :- NextRun(w, cmp, low, remaining, minRun, lt);
      Push(lt, cmp.Orders(lt), was, s, w[..], runs, low, cur);
      runs := runs + [Run(low, cur)];
      peak := if |runs| > peak then |runs| else peak;
      minGallop, runs :- MergeCollapse(w, cmp, runs, minGallop, was, low + cur, lt);
      low := low + cur;
      remaining := remaining - cur;
    }
    r := MergeForceCollapse(w, cmp, runs, minGallop, was, low, lt);
  }

  lemma Short<T(!new)>(lt: (T, T) -> bool, good: bool, s: seq<T>)
    requires |s| < 2
    ensures SortOf(lt, good, s, s)
  {
  }

  lemma StartBetween<T(!new)>(lt: (T, T) -> bool, good: bool, was: seq<T>)
    ensures Between(lt, good, was, was, [], 0) && Collapsed([])
  {
  }

  lemma Push<T(!new)>(lt: (T, T) -> bool, good: bool, was: seq<T>, s: seq<T>, t: seq<T>, runs: seq<Run>, end: nat, len: nat)
    requires Between(lt, good, was, s, runs, end) && 0 < len && end + len <= |s| && Collapsed(runs)
    requires SortedWithin(lt, good, s, t, end, end + len)
    ensures var pushed := runs + [Run(end, len)];
            && Between(lt, good, was, t, pushed, end + len)
            && CollapsedTo(pushed, |pushed| - 2)
            && (|was| <= MAX_ARRAY ==> |pushed| <= SORT_RUNS)
  {
    hide Rearranged, Sorted, RunsSorted, SortedWithin;
    PushKeeps(lt, good, was, s, t, runs, end, len);
    if |was| <= MAX_ARRAY {
      StackFits(runs, end);
    }
    var pushed := runs + [Run(end, len)];
    forall k | 0 <= k <= |pushed| - 2 ensures RunInvariant(pushed, k) && Falls(pushed, k) {
      assert RunInvariant(runs, k) && Falls(runs, k);
    }
  }
}
