/** merge_low: run A is the shorter; it moves to the buffer and the merge goes from the front. */
module MergeLow {
  import opened StableOrder
  import opened Comparators
  import opened Gallop
  import opened Merging
  import opened Blocks

  /** `dest`: next cell to write; `ct`, `lenA`: rest of the buffer; `cb`, `lenB`: rest of run B. */
  datatype Cursors = At(dest: nat, ct: nat, lenA: nat, cb: nat, lenB: nat) {
    function TakeA(k: nat): Cursors
      requires k <= lenA
    {
      At(dest + k, ct + k, lenA - k, cb, lenB)
    }

    function TakeB(k: nat): Cursors
      requires k <= lenB
    {
      At(dest + k, ct, lenA, cb + k, lenB - k)
    }

    function Left(): nat { lenA + lenB }

    predicate Fit(phase: Phase) {
      match phase
      case More => lenA >= 2 && lenB >= 1
      case Succeed => lenA == 0 || lenB == 0
      case Copy => lenA == 1
    }
  }

  /** Where the cursors stand: the gap between output and run B always has room for exactly what
      the buffer still holds. */
  ghost predicate Placed<T(!new)>(job: Job<T>, c: Cursors) {
    && job.Fits()
    && job.baseA <= c.dest && c.dest + c.lenA == c.cb && job.Mid() <= c.cb
    && c.ct + c.lenA == job.lenA && c.cb + c.lenB == job.End()
  }

  /** What the array holds when the cursors stand there. */
  ghost predicate Holds<T(!new)>(job: Job<T>, s: seq<T>, c: Cursors)
    requires Placed(job, c) && |s| == |job.was|
  {
    && (job.good ==> Ready(job.lt, job.A(), job.B()))
    && s[..job.baseA] == job.was[..job.baseA] && s[c.cb..] == job.was[c.cb..]
    && Merging.Front(job.lt, job.good, job.A(), job.B(), s[job.baseA..c.dest], job.A()[c.ct..], job.was[c.cb..job.End()])
  }

  ghost predicate Kept<T(!new)>(job: Job<T>, s: seq<T>, c: Cursors) {
    Placed(job, c) && |s| == |job.was| && Holds(job, s, c)
  }

  lemma StepA<T(!new)>(job: Job<T>, s: seq<T>, t: seq<T>, c: Cursors, k: nat)
    requires Kept(job, s, c) && k <= c.lenA
    requires var block := job.A()[c.ct..c.ct + k];
             && t == Overwritten(s, c.dest, block)
             && (job.good && c.lenB > 0 ==> NoneBefore(job.lt, [s[c.cb]], block))
    ensures Kept(job, t, c.TakeA(k))
  {
    hide Merging.Front, Ready, AllBefore, NoneBefore, Overwritten;
    var ra, rb := job.A()[c.ct..], job.was[c.cb..job.End()];
    assert rb != [] ==> rb[0] == s[c.cb..][0];
    BlockFromA(job.was, s, t, job.A(), job.baseA, c.dest, c.ct, c.cb, k);
    assert Merging.Front(job.lt, job.good, job.A(), job.B(), s[job.baseA..c.dest], ra, rb);
    assert job.good && rb != [] ==> NoneBefore(job.lt, [rb[0]], ra[..k]);
    FrontTakesA(job.lt, job.good, job.A(), job.B(), s[job.baseA..c.dest], ra, rb, k);
  }

  lemma BlockFromA<T>(was: seq<T>, s: seq<T>, t: seq<T>, a: seq<T>, base: nat, dest: nat, ct: nat, cb: nat, k: nat)
    requires base <= dest <= dest + k <= cb <= |s| == |was| && ct + k <= |a|
    requires s[..base] == was[..base] && s[cb..] == was[cb..]
    requires t == Overwritten(s, dest, a[ct..ct + k])
    ensures |t| == |s| && t[..base] == was[..base] && t[cb..] == was[cb..]
    ensures a[ct..][..k] == a[ct..ct + k] && a[ct..][k..] == a[ct + k..]
    ensures t[base..dest + k] == s[base..dest] + a[ct..][..k]
  {
    assert t[cb..] == s[cb..];
  }

  lemma StepB<T(!new)>(job: Job<T>, s: seq<T>, t: seq<T>, c: Cursors, k: nat)
    requires Kept(job, s, c) && k <= c.lenB
    requires var block := s[c.cb..c.cb + k];
             && t == Overwritten(s, c.dest, block)
             && (job.good && c.lenA > 0 ==> AllBefore(job.lt, block, [job.A()[c.ct]]))
    ensures Kept(job, t, c.TakeB(k))
  {
    hide Merging.Front, Ready, AllBefore, NoneBefore, Overwritten;
    var ra, rb := job.A()[c.ct..], job.was[c.cb..job.End()];
    BlockFromB(job.was, s, t, job.baseA, c.dest, c.cb, k, job.End());
    assert Merging.Front(job.lt, job.good, job.A(), job.B(), s[job.baseA..c.dest], ra, rb);
    assert ra != [] ==> ra[0] == job.A()[c.ct];
    FrontTakesB(job.lt, job.good, job.A(), job.B(), s[job.baseA..c.dest], ra, rb, k);
    assert t[job.baseA..c.TakeB(k).dest] == s[job.baseA..c.dest] + rb[..k];
  }

  lemma BlockFromB<T>(was: seq<T>, s: seq<T>, t: seq<T>, base: nat, dest: nat, cb: nat, k: nat, end: nat)
    requires base <= dest <= cb && cb + k <= end <= |s| == |was|
    requires s[..base] == was[..base] && s[cb..] == was[cb..]
    requires t == Overwritten(s, dest, s[cb..cb + k])
    ensures |t| == |s| && t[..base] == was[..base] && t[cb + k..] == was[cb + k..]
    ensures was[cb..end][..k] == s[cb..cb + k] && was[cb..end][k..] == was[cb + k..end]
    ensures t[base..dest + k] == s[base..dest] + was[cb..end][..k]
  {
    assert was[cb..end][..k] == was[cb..][..k] && s[cb..cb + k] == s[cb..][..k];
    assert t[cb + k..] == s[cb..][k..] && was[cb + k..] == was[cb..][k..];
  }

  lemma StepOneA<T(!new)>(job: Job<T>, s: seq<T>, t: seq<T>, c: Cursors)
    requires Kept(job, s, c) && 1 <= c.lenA
    requires t == s[c.dest := job.A()[c.ct]]
    requires job.good && c.lenB > 0 ==> NoneBefore(job.lt, [s[c.cb]], [job.A()[c.ct]])
    ensures Kept(job, t, c.TakeA(1))
  {
    hide Holds;
    assert job.A()[c.ct..c.ct + 1] == [job.A()[c.ct]];
    StepA(job, s, t, c, 1);
  }

  lemma StepOneB<T(!new)>(job: Job<T>, s: seq<T>, t: seq<T>, c: Cursors)
    requires Kept(job, s, c) && 1 <= c.lenB
    requires t == s[c.dest := s[c.cb]]
    requires job.good && c.lenA > 0 ==> AllBefore(job.lt, [s[c.cb]], [job.A()[c.ct]])
    ensures Kept(job, t, c.TakeB(1))
  {
    hide Holds;
    assert s[c.cb..c.cb + 1] == [s[c.cb]];
    StepB(job, s, t, c, 1);
  }

  /** With the buffer empty, the rest of B is already in its place. */
  lemma Finished<T(!new)>(job: Job<T>, s: seq<T>, c: Cursors)
    requires Kept(job, s, c) && c.lenA == 0
    ensures SortedWithin(job.lt, job.good, job.was, s, job.baseA, job.End())
  {
    hide Merging.Front, Ready, SortedWithin;
    var out, rb := s[job.baseA..c.dest], job.was[c.cb..job.End()];
    assert job.A()[c.ct..] == [];
    FrontDone(job.lt, job.good, job.A(), job.B(), out, rb);
    RestInPlace(job.was, s, job.baseA, c.cb, job.End());
    MergedWithin(job, s);
  }

  lemma RestInPlace<T>(was: seq<T>, s: seq<T>, base: nat, cb: nat, end: nat)
    requires base <= cb <= end <= |s| == |was| && s[cb..] == was[cb..]
    ensures s[base..end] == s[base..cb] + was[cb..end] && s[end..] == was[end..]
  {
    assert was[cb..end] == s[cb..][..end - cb];
    assert s[end..] == s[cb..][end - cb..] && was[end..] == was[cb..][end - cb..];
  }

  /** What is left of the runs is sorted. */
  lemma RestSorted<T(!new)>(job: Job<T>, s: seq<T>, c: Cursors)
    requires Kept(job, s, c) && job.good
    ensures WeakOrder(job.lt)
    ensures Sorted(job.lt, job.A()[c.ct..c.ct + c.lenA]) && Sorted(job.lt, s[c.cb..c.cb + c.lenB])
  {
    hide Merging.Front, WeakOrder, Sorted;
    assert s[c.cb..c.cb + c.lenB] == s[c.cb..][..c.lenB] == job.was[c.cb..][..c.lenB];
    assert job.B()[c.cb - job.Mid()..job.lenB] == job.was[c.cb..][..c.lenB];
    SortedPart(job.lt, job.A(), c.ct, c.ct + c.lenA);
    SortedPart(job.lt, job.B(), c.cb - job.Mid(), job.lenB);
  }

  /** So a gallop over it is exact. */
  lemma RestSplits<T(!new)>(job: Job<T>, s: seq<T>, c: Cursors, key: T)
    requires Kept(job, s, c) && job.good
    ensures HighSuffix(job.lt, job.A()[c.ct..c.ct + c.lenA], key)
    ensures LowPrefix(job.lt, s[c.cb..c.cb + c.lenB], key)
  {
    hide Holds, WeakOrder, Sorted;
    RestSorted(job, s, c);
    SortedSplits(job.lt, job.A()[c.ct..c.ct + c.lenA], key);
    SortedSplits(job.lt, s[c.cb..c.cb + c.lenB], key);
  }

  /** One element at a time, until one run has won `mg` times in a row. */
  method OneByOne<T(!new)>(w: array<T>, cmp: Comparator<T>, tmp: seq<T>, c0: Cursors, mg: nat, ghost job: Job<T>)
    returns (r: Outcome<Phase>, c: Cursors, wa: nat, wb: nat)
    requires Kept(job, w[..], c0) && tmp == job.A() && c0.Fit(More)
    requires job.good ==> cmp.Orders(job.lt)
    modifies w, cmp
    ensures r.Thrown? ==> cmp.Threw()
    ensures r.Ok? ==> Kept(job, w[..], c) && c.Fit(r.value) && c.Left() < c0.Left()
  {
    hide Holds, WeakOrder;
    c, wa, wb := c0, 0, 0;
    while true
      invariant Kept(job, w[..], c) && c.Fit(More) && c.Left() <= c0.Left()
      invariant wa + wb > 0 ==> c.Left() < c0.Left()
      decreases c.Left()
    {
      ghost var s := w[..];
      var o :- cmp.Compare(w[c.cb], tmp[c.ct]);
      if o < 0 {
        w[c.dest] := w[c.cb];
        StepOneB(job, s, w[..], c);
        c := c.TakeB(1);
        wb := wb + 1;
        wa := 0;
        if c.lenB == 0 {
          return Ok(Succeed), c, wa, wb;
        }
        if wb >= mg {
          break;
        }
      } else {
        w[c.dest] := tmp[c.ct];
        StepOneA(job, s, w[..], c);
        c := c.TakeA(1);
        wa := wa + 1;
        wb := 0;
        if c.lenA == 1 {
          return Ok(Copy), c, wa, wb;
        }
        if wa >= mg {
          break;
        }
      }
    }
    return Ok(More), c, wa, wb;
  }

  /** One round of galloping: a block of A, one of B, a block of B, one of A. */
  method GallopRound<T(!new)>(w: array<T>, cmp: Comparator<T>, tmp: seq<T>, c0: Cursors, ghost job: Job<T>)
    returns (r: Outcome<Phase>, c: Cursors, wa: nat, wb: nat)
    requires Kept(job, w[..], c0) && tmp == job.A() && c0.Fit(More) && w.Length <= ISIZE_MAX
    requires job.good ==> cmp.Orders(job.lt)
    modifies w, cmp
    ensures r.Thrown? ==> cmp.Threw()
    ensures r.Ok? ==> Kept(job, w[..], c) && c.Fit(r.value) && c.Left() < c0.Left()
  {
    hide Holds, WeakOrder;
    c, wa, wb := c0, 0, 0;
    r, c, wa := GallopA(w, cmp, tmp, c, job);
    if r.Thrown? || !r.value.More? {
      return;
    }
    ghost var s := w[..];
    w[c.dest] := w[c.cb];
    StepOneB(job, s, w[..], c);
    c := c.TakeB(1);
    if c.lenB == 0 {
      return Ok(Succeed), c, wa, wb;
    }
    r, c, wb := GallopB(w, cmp, tmp, c, job);
    if r.Thrown? || !r.value.More? {
      return;
    }
    s := w[..];
    w[c.dest] := tmp[c.ct];
    StepOneA(job, s, w[..], c);
    c := c.TakeA(1);
    if c.lenA == 1 {
      return Ok(Copy), c, wa, wb;
    }
    return Ok(More), c, wa, wb;
  }

  lemma SliceFront<T>(s: seq<T>, lo: nat, n: nat, k: nat)
    requires lo + n <= |s| && k <= n
    ensures s[lo..lo + n][..k] == s[lo..lo + k] && (k < n ==> s[lo..lo + n][k] == s[lo + k])
  {
  }

  /** The part of the buffer that the head of B does not come before. */
  lemma HeadOfA<T(!new)>(job: Job<T>, s: seq<T>, c: Cursors, k: nat)
    requires Kept(job, s, c) && c.lenB > 0
    requires RightSplit(job.lt, job.A()[c.ct..c.ct + c.lenA], s[c.cb], k)
    ensures NoneBefore(job.lt, [s[c.cb]], job.A()[c.ct..c.ct + k])
    ensures k < c.lenA ==> AllBefore(job.lt, [s[c.cb]], [job.A()[c.ct + k]])
  {
    hide Holds;
    SliceFront(job.A(), c.ct, c.lenA, k);
  }

  /** The part of B that comes before the head of the buffer. */
  lemma HeadOfB<T(!new)>(job: Job<T>, s: seq<T>, c: Cursors, k: nat)
    requires Kept(job, s, c) && c.lenA > 0
    requires LeftSplit(job.lt, s[c.cb..c.cb + c.lenB], job.A()[c.ct], k)
    ensures AllBefore(job.lt, s[c.cb..c.cb + k], [job.A()[c.ct]])
    ensures k < c.lenB ==> NoneBefore(job.lt, [s[c.cb + k]], [job.A()[c.ct]])
  {
    hide Holds;
    SliceFront(s, c.cb, c.lenB, k);
  }

  /** Moves the part of A that the head of B does not come before. */
  method GallopA<T(!new)>(w: array<T>, cmp: Comparator<T>, tmp: seq<T>, c0: Cursors, ghost job: Job<T>)
    returns (r: Outcome<Phase>, c: Cursors, wa: nat)
    requires Kept(job, w[..], c0) && tmp == job.A() && c0.Fit(More) && w.Length <= ISIZE_MAX
    requires job.good ==> cmp.Orders(job.lt)
    modifies w, cmp
    ensures r.Thrown? ==> cmp.Threw()
    ensures r.Ok? ==> Kept(job, w[..], c) && c.Fit(r.value) && c.Left() <= c0.Left()
    ensures r.Ok? && !r.value.More? ==> c.Left() < c0.Left()
    ensures r.Ok? && r.value.More? && job.good ==> AllBefore(job.lt, [w[c.cb]], [tmp[c.ct]])
  {
    hide Holds, WeakOrder, AllBefore, NoneBefore, HighSuffix, RightSplit, Overwritten;
    c, wa := c0, 0;
    var key := w[c.cb];
    ghost var s := w[..];
    if job.good {
      RestSplits(job, s, c, key);
    }
    wa :- GallopRight(tmp, cmp, key, c.ct, c.lenA, 0, job.lt);
    if job.good {
      HeadOfA(job, s, c, wa);
    }
    if wa > 0 {
      WriteBlock(w, c.dest, tmp[c.ct..c.ct + wa]);
      StepA(job, s, w[..], c, wa);
      OutsideBlock(s, c.dest, tmp[c.ct..c.ct + wa], c.cb, c.cb + 1);
      assert w[..][c.cb] == w[..][c.cb..c.cb + 1][0] == key;
      c := c.TakeA(wa);
      if c.lenA == 1 {
        return Ok(Copy), c, wa;
      }
      if c.lenA == 0 {
        return Ok(Succeed), c, wa;
      }
    }
    return Ok(More), c, wa;
  }

  /** Moves the part of B that comes before the head of A. */
  method GallopB<T(!new)>(w: array<T>, cmp: Comparator<T>, tmp: seq<T>, c0: Cursors, ghost job: Job<T>)
    returns (r: Outcome<Phase>, c: Cursors, wb: nat)
    requires Kept(job, w[..], c0) && tmp == job.A() && c0.Fit(More) && w.Length <= ISIZE_MAX
    requires job.good ==> cmp.Orders(job.lt)
    modifies w, cmp
    ensures r.Thrown? ==> cmp.Threw()
    ensures r.Ok? ==> Kept(job, w[..], c) && c.Fit(r.value) && c.Left() <= c0.Left()
    ensures r.Ok? && r.value.More? && job.good ==> NoneBefore(job.lt, [w[c.cb]], [tmp[c.ct]])
  {
    hide Holds, WeakOrder, AllBefore, NoneBefore, LowPrefix, LeftSplit, Overwritten;
    c, wb := c0, 0;
    var key := tmp[c.ct];
    ghost var s := w[..];
    if job.good {
      RestSplits(job, s, c, key);
    }
    wb :- GallopLeft(w[..], cmp, key, c.cb, c.lenB, 0, job.lt);
    if job.good {
      HeadOfB(job, s, c, wb);
    }
    if wb > 0 {
      MoveWithin(w, c.cb, c.dest, wb);
      StepB(job, s, w[..], c, wb);
      OutsideBlock(s, c.dest, s[c.cb..c.cb + wb], c.cb + wb, c.cb + c.lenB);
      assert wb < c.lenB ==> w[..][c.cb + wb] == w[..][c.cb + wb..c.cb + c.lenB][0] == s[c.cb + wb];
      c := c.TakeB(wb);
      if c.lenB == 0 {
        return Ok(Succeed), c, wb;
      }
    }
    return Ok(More), c, wb;
  }

  /** Nothing has moved yet, but run A is also in the buffer. */
  lemma Started<T(!new)>(job: Job<T>)
    requires job.Valid()
    ensures Kept(job, job.was, At(job.baseA, 0, job.lenA, job.Mid(), job.lenB))
  {
    hide Ready, Merging.Front;
    var c := At(job.baseA, 0, job.lenA, job.Mid(), job.lenB);
    assert job.was[job.baseA..c.dest] == [] && job.A()[c.ct..] == job.A();
    FrontStart(job.lt, job.good, job.A(), job.B());
  }

  /** Empties the buffer; a lone last element of A goes behind all that is left of B. */
  method Finish<T(!new)>(w: array<T>, tmp: seq<T>, c0: Cursors, end: Phase, ghost job: Job<T>)
    requires Kept(job, w[..], c0) && tmp == job.A() && c0.Fit(end) && !end.More?
    modifies w
    ensures SortedWithin(job.lt, job.good, job.was, w[..], job.baseA, job.End())
  {
    hide Holds, WeakOrder, SortedWithin;
    var c := c0;
    ghost var s := w[..];
    match end
    case Succeed =>
      if c.lenA > 0 {
        WriteBlock(w, c.dest, tmp[c.ct..c.ct + c.lenA]);
        StepA(job, s, w[..], c, c.lenA);
        c := c.TakeA(c.lenA);
      }
      Finished(job, w[..], c);
    case Copy =>
      LastOfA(job, s, c);
      MoveWithin(w, c.cb, c.dest, c.lenB);
      StepB(job, s, w[..], c, c.lenB);
      c := c.TakeB(c.lenB);
      s := w[..];
      w[c.dest] := tmp[c.ct];
      StepOneA(job, s, w[..], c);
      Finished(job, w[..], c.TakeA(1));
  }

  lemma LastOfA<T(!new)>(job: Job<T>, s: seq<T>, c: Cursors)
    requires Kept(job, s, c) && c.lenA == 1
    ensures var block := s[c.cb..c.cb + c.lenB];
            job.good ==> AllBefore(job.lt, block, [job.A()[c.ct]])
  {
    hide Merging.Front, WeakOrder;
    var rb := s[c.cb..c.cb + c.lenB];
    assert rb == s[c.cb..][..c.lenB] == job.was[c.cb..][..c.lenB] == job.B()[c.cb - job.Mid()..];
  }

  /** Merges the neighbouring runs A and B; `minGallop` adapts to how well galloping pays.
      Always a permutation; for a consistent comparator and trimmed runs, sorted and stable. */
  method MergeLow<T(!new)>(w: array<T>, cmp: Comparator<T>, baseA: nat, lenA: nat, baseB: nat, lenB: nat, minGallop: nat,
                           ghost lt: (T, T) -> bool)
    returns (r: Outcome<nat>)
    requires 0 < lenA && 0 < lenB && baseB == baseA + lenA && baseB + lenB <= w.Length <= ISIZE_MAX
    requires 0 < minGallop
    modifies w, cmp
    ensures r.Thrown? ==> cmp.Threw()
    ensures r.Ok? ==> 0 < r.value
    ensures r.Ok? ==>
              SortedWithin(lt, cmp.Orders(lt) && Ready(lt, old(w[baseA..baseB]), old(w[baseB..baseB + lenB])),
                           old(w[..]), w[..], baseA, baseB + lenB)
  {
    hide Holds, WeakOrder, SortedWithin, Sorted;
    var tmp := w[baseA..baseB];
    ghost var good := cmp.Orders(lt) && Ready(lt, tmp, w[baseB..baseB + lenB]);
    ghost var job := Job(lt, good, w[..], baseA, lenA, lenB);
    assert tmp == job.A() && w[baseB..baseB + lenB] == job.B();
    var mg, kept := minGallop, minGallop;
    var c := At(baseA, 0, lenA, baseB, lenB);
    Started(job);
    w[c.dest] := w[c.cb];
    StepOneB(job, job.was, w[..], c);
    c := c.TakeB(1);
    var phase := if c.lenB == 0 then Succeed else if c.lenA == 1 then Copy else More;
    while phase.More?
      invariant Kept(job, w[..], c) && c.Fit(phase) && 0 < mg && 0 < kept
      decreases c.Left()
    {
      ghost var left := c.Left();
      var wa, wb;
      phase, c, wa, wb :- OneByOne(w, cmp, tmp, c, mg, job);
      if phase.More? {
        mg := mg + 1;
        var first := true;
        while phase.More? && (wa >= SORT_MIN_GALLOP || wb >= SORT_MIN_GALLOP || first)
          invariant Kept(job, w[..], c) && c.Fit(phase) && 0 < mg && 0 < kept
          invariant c.Left() < left
          decreases c.Left()
        {
          first := false;
          mg := if mg - 1 > 1 then mg - 1 else 1;
          kept := mg;
          phase, c, wa, wb :- GallopRound(w, cmp, tmp, c, job);
        }
        if phase.More? {
          mg := mg + 1;
          kept := mg;
        }
      }
    }
    Finish(w, tmp, c, phase, job);
    return Ok(kept);
  }
}
