/** merge_high: run B is the shorter; it moves to the buffer and the merge goes from the back. */
module MergeHigh {
  import opened StableOrder
  import opened Comparators
  import opened Gallop
  import opened Merging
  import opened Blocks

  /** `dest`: next cell to write; `ca`, `lenA`: last cell and length of the rest of run A;
      `ct`, `lenB`: last cell and length of the rest of the buffer. All three cells may step below
      the first one, so they are signed. */
  datatype Cursors = At(dest: int, ca: int, lenA: nat, ct: int, lenB: nat) {
    function TakeA(k: nat): Cursors
      requires k <= lenA
    {
      At(dest - k, ca - k, lenA - k, ct, lenB)
    }

    function TakeB(k: nat): Cursors
      requires k <= lenB
    {
      At(dest - k, ca, lenA, ct - k, lenB - k)
    }

    function Left(): nat { lenA + lenB }

    predicate Fit(phase: Phase) {
      match phase
      case More => lenA >= 1 && lenB >= 2
      case Succeed => lenA == 0 || lenB == 0
      case Copy => lenB == 1
    }
  }

  /** Where the cursors stand: the gap between run A and the output has room for exactly what the
      buffer still holds. */
  ghost predicate Placed<T(!new)>(job: Job<T>, c: Cursors) {
    && job.Fits()
    && c.lenA <= job.lenA && c.lenB <= job.lenB
    && c.ca == job.baseA + c.lenA - 1 && c.ct == c.lenB - 1 && c.dest == c.ca + c.lenB
  }

  /** What the array holds when the cursors stand there. */
  ghost predicate Holds<T(!new)>(job: Job<T>, s: seq<T>, c: Cursors)
    requires Placed(job, c) && |s| == |job.was|
  {
    && (job.good ==> Ready(job.lt, job.A(), job.B()))
    && s[..c.ca + 1] == job.was[..c.ca + 1] && s[job.End()..] == job.was[job.End()..]
    && Back(job.lt, job.good, job.A(), job.B(), s[job.baseA..c.ca + 1], job.B()[..c.lenB], s[c.dest + 1..job.End()])
  }

  ghost predicate Kept<T(!new)>(job: Job<T>, s: seq<T>, c: Cursors) {
    Placed(job, c) && |s| == |job.was| && Holds(job, s, c)
  }

  lemma StepA<T(!new)>(job: Job<T>, s: seq<T>, t: seq<T>, c: Cursors, k: nat)
    requires Kept(job, s, c) && k <= c.lenA
    requires var block := s[c.ca + 1 - k..c.ca + 1];
             && t == Overwritten(s, c.dest + 1 - k, block)
             && (job.good ==> AllBefore(job.lt, job.B()[..c.lenB], block))
    ensures Kept(job, t, c.TakeA(k))
  {
    hide Back, Ready, AllBefore, Overwritten;
    var ra, rb, out := s[job.baseA..c.ca + 1], job.B()[..c.lenB], s[c.dest + 1..job.End()];
    var n, d := c.lenA - k, c.TakeA(k);
    BlockFromA(job.was, s, t, job.baseA, c.ca + 1, k, c.dest + 1, job.End());
    assert Back(job.lt, job.good, job.A(), job.B(), ra, rb, out);
    BackTakesA(job.lt, job.good, job.A(), job.B(), ra, rb, out, n);
    assert t[job.baseA..d.ca + 1] == ra[..n] && t[d.dest + 1..job.End()] == ra[n..] + out;
  }

  lemma BlockFromA<T>(was: seq<T>, s: seq<T>, t: seq<T>, base: nat, ca: nat, k: nat, dest: nat, end: nat)
    requires base + k <= ca <= dest <= end <= |s| == |was|
    requires s[..ca] == was[..ca] && s[end..] == was[end..]
    requires t == Overwritten(s, dest - k, s[ca - k..ca])
    ensures |t| == |s| && t[..ca - k] == was[..ca - k] && t[end..] == was[end..]
    ensures s[base..ca][ca - k - base..] == s[ca - k..ca]
    ensures t[base..ca - k] == s[base..ca][..ca - k - base]
    ensures t[dest - k..end] == s[base..ca][ca - k - base..] + s[dest..end]
  {
    assert s[base..ca][..ca - k - base] == s[base..ca - k];
    BlockToBack(was, s, t, base, ca, ca - k, dest, s[ca - k..ca], end);
  }

  lemma StepB<T(!new)>(job: Job<T>, s: seq<T>, t: seq<T>, c: Cursors, k: nat)
    requires Kept(job, s, c) && k <= c.lenB
    requires var block := job.B()[c.lenB - k..c.lenB];
             && t == Overwritten(s, c.dest + 1 - k, block)
             && (job.good ==> NoneBefore(job.lt, block, s[job.baseA..c.ca + 1]))
    ensures Kept(job, t, c.TakeB(k))
  {
    hide Back, Ready, NoneBefore, Overwritten;
    var ra, rb, out := s[job.baseA..c.ca + 1], job.B()[..c.lenB], s[c.dest + 1..job.End()];
    var n := c.lenB - k;
    var block := job.B()[n..c.lenB];
    assert rb[n..] == block && rb[..n] == job.B()[..n];
    assert job.good ==> NoneBefore(job.lt, rb[n..], ra);
    assert Back(job.lt, job.good, job.A(), job.B(), ra, rb, out);
    BackTakesB(job.lt, job.good, job.A(), job.B(), ra, rb, out, n);
    BlockToBack(job.was, s, t, job.baseA, c.ca + 1, c.ca + 1, c.dest + 1, block, job.End());
  }

  lemma BlockToBack<T>(was: seq<T>, s: seq<T>, t: seq<T>, base: nat, ca: nat, m: nat, dest: nat, block: seq<T>, end: nat)
    requires base <= m <= ca <= dest <= end <= |s| == |was| && m + |block| <= dest
    requires s[..ca] == was[..ca] && s[end..] == was[end..]
    requires t == Overwritten(s, dest - |block|, block)
    ensures |t| == |s| && t[..m] == was[..m] && t[end..] == was[end..]
    ensures t[base..m] == s[base..m]
    ensures t[dest - |block|..end] == block + s[dest..end]
  {
    assert t[..m] == s[..ca][..m] && was[..m] == was[..ca][..m];
    assert t[base..m] == t[..m][base..] && s[base..m] == s[..ca][..m][base..];
  }

  lemma StepOneA<T(!new)>(job: Job<T>, s: seq<T>, t: seq<T>, c: Cursors)
    requires Kept(job, s, c) && 1 <= c.lenA
    requires t == s[c.dest := s[c.ca]]
    requires job.good ==> AllBefore(job.lt, job.B()[..c.lenB], [s[c.ca]])
    ensures Kept(job, t, c.TakeA(1))
  {
    hide Holds;
    assert s[c.ca..c.ca + 1] == [s[c.ca]];
    StepA(job, s, t, c, 1);
  }

  lemma StepOneB<T(!new)>(job: Job<T>, s: seq<T>, t: seq<T>, c: Cursors)
    requires Kept(job, s, c) && 1 <= c.lenB
    requires t == s[c.dest := job.B()[c.ct]]
    requires job.good ==> NoneBefore(job.lt, [job.B()[c.ct]], s[job.baseA..c.ca + 1])
    ensures Kept(job, t, c.TakeB(1))
  {
    hide Holds;
    assert job.B()[c.ct..c.ct + 1] == [job.B()[c.ct]];
    StepB(job, s, t, c, 1);
  }

  /** With the buffer empty, the rest of A is already in its place. */
  lemma Finished<T(!new)>(job: Job<T>, s: seq<T>, c: Cursors)
    requires Kept(job, s, c) && c.lenB == 0
    ensures SortedWithin(job.lt, job.good, job.was, s, job.baseA, job.End())
  {
    hide Back, Ready, SortedWithin;
    var lo, m, hi := job.baseA, c.ca + 1, job.End();
    assert job.B()[..c.lenB] == [];
    assert Back(job.lt, job.good, job.A(), job.B(), s[lo..m], [], s[m..hi]);
    BackDone(job.lt, job.good, job.A(), job.B(), s[lo..m], s[m..hi]);
    FrontInPlace(job.was, s, lo, m, hi);
    MergedWithin(job, s);
  }

  lemma FrontInPlace<T>(was: seq<T>, s: seq<T>, lo: nat, m: nat, hi: nat)
    requires lo <= m <= hi <= |s| == |was| && s[..m] == was[..m]
    ensures s[lo..hi] == s[lo..m] + s[m..hi] && s[..lo] == was[..lo]
  {
    assert s[..lo] == s[..m][..lo] && was[..lo] == was[..m][..lo];
  }

  /** What is left of the runs is sorted. */
  lemma RestSorted<T(!new)>(job: Job<T>, s: seq<T>, c: Cursors)
    requires Kept(job, s, c) && job.good
    ensures WeakOrder(job.lt)
    ensures Sorted(job.lt, s[job.baseA..c.ca + 1]) && Sorted(job.lt, job.B()[..c.lenB])
  {
    hide Back, WeakOrder, Sorted;
    var n := c.ca + 1;
    assert s[job.baseA..n] == s[..n][job.baseA..] == job.was[..n][job.baseA..];
    assert job.A()[0..c.lenA] == job.was[..n][job.baseA..];
    SortedPart(job.lt, job.A(), 0, c.lenA);
    SortedPart(job.lt, job.B(), 0, c.lenB);
    assert job.B()[0..c.lenB] == job.B()[..c.lenB];
  }

  /** A block behind the last of the buffer is behind all of the buffer. */
  lemma BehindLastB<T(!new)>(lt: (T, T) -> bool, rb: seq<T>, block: seq<T>)
    requires WeakOrder(lt) && Sorted(lt, rb) && rb != []
    requires forall j :: 0 <= j < |block| ==> lt(rb[|rb| - 1], block[j])
    ensures AllBefore(lt, rb, block)
  {
    forall i, j | 0 <= i < |rb| && 0 <= j < |block| ensures lt(rb[i], block[j]) {
      Cotransitive(lt, rb[|rb| - 1], rb[i], block[j]);
    }
  }

  /** A block not before the last of A is not before anything in A. */
  lemma NotBeforeLastA<T(!new)>(lt: (T, T) -> bool, block: seq<T>, ra: seq<T>)
    requires WeakOrder(lt) && Sorted(lt, ra) && ra != []
    requires forall j :: 0 <= j < |block| ==> !lt(block[j], ra[|ra| - 1])
    ensures NoneBefore(lt, block, ra)
  {
    forall i, j | 0 <= i < |ra| && 0 <= j < |block| ensures !lt(block[j], ra[i]) {
      if lt(block[j], ra[i]) {
        Cotransitive(lt, block[j], ra[|ra| - 1], ra[i]);
      }
    }
  }

  /** One element at a time, until one run has won `mg` times in a row. */
  method OneByOne<T(!new)>(w: array<T>, cmp: Comparator<T>, tmp: seq<T>, c0: Cursors, mg: nat, ghost job: Job<T>)
    returns (r: Outcome<Phase>, c: Cursors, wa: nat, wb: nat)
    requires Kept(job, w[..], c0) && tmp == job.B() && c0.Fit(More)
    requires job.good ==> cmp.Orders(job.lt)
    modifies w, cmp
    ensures r.Thrown? ==> cmp.Threw()
    ensures r.Ok? ==> Kept(job, w[..], c) && c.Fit(r.value) && c.Left() < c0.Left()
  {
    hide Holds, WeakOrder, Sorted, AllBefore, NoneBefore;
    c, wa, wb := c0, 0, 0;
    while true
      invariant Kept(job, w[..], c) && c.Fit(More) && c.Left() <= c0.Left()
      invariant wa + wb > 0 ==> c.Left() < c0.Left()
      decreases c.Left()
    {
      ghost var s := w[..];
      ghost var ra, rb := s[job.baseA..c.ca + 1], job.B()[..c.lenB];
      var o :- cmp.Compare(tmp[c.ct], w[c.ca]);
      if job.good {
        RestSorted(job, s, c);
        if o < 0 {
          BehindLastB(job.lt, rb, [s[c.ca]]);
        } else {
          NotBeforeLastA(job.lt, [tmp[c.ct]], ra);
        }
      }
      if o < 0 {
        w[c.dest] := w[c.ca];
        StepOneA(job, s, w[..], c);
        c := c.TakeA(1);
        wa := wa + 1;
        wb := 0;
        if c.lenA == 0 {
          return Ok(Succeed), c, wa, wb;
        }
        if wa >= mg {
          break;
        }
      } else {
        w[c.dest] := tmp[c.ct];
        StepOneB(job, s, w[..], c);
        c := c.TakeB(1);
        wb := wb + 1;
        wa := 0;
        if c.lenB == 1 {
          return Ok(Copy), c, wa, wb;
        }
        if wb >= mg {
          break;
        }
      }
    }
    return Ok(More), c, wa, wb;
  }

  /** The part of A that the last of the buffer comes before. */
  lemma TailOfA<T(!new)>(job: Job<T>, s: seq<T>, c: Cursors, k: nat)
    requires Kept(job, s, c) && job.good && c.lenB > 0
    requires RightSplit(job.lt, s[job.baseA..c.ca + 1], job.B()[c.ct], k)
    ensures AllBefore(job.lt, job.B()[..c.lenB], s[job.baseA + k..c.ca + 1])
    ensures NoneBefore(job.lt, [job.B()[c.ct]], s[job.baseA..job.baseA + k])
  {
    hide Holds, WeakOrder;
    var ra := s[job.baseA..c.ca + 1];
    RestSorted(job, s, c);
    assert s[job.baseA..job.baseA + k] == ra[..k] && s[job.baseA + k..c.ca + 1] == ra[k..];
    BehindLastB(job.lt, job.B()[..c.lenB], ra[k..]);
  }

  /** The part of the buffer that does not come before the last of A. */
  lemma TailOfB<T(!new)>(job: Job<T>, s: seq<T>, c: Cursors, k: nat)
    requires Kept(job, s, c) && job.good && c.lenA > 0
    requires LeftSplit(job.lt, job.B()[..c.lenB], s[c.ca], k)
    ensures NoneBefore(job.lt, job.B()[k..c.lenB], s[job.baseA..c.ca + 1])
    ensures AllBefore(job.lt, job.B()[..k], [s[c.ca]])
  {
    hide Holds, WeakOrder;
    var rb := job.B()[..c.lenB];
    RestSorted(job, s, c);
    assert job.B()[..k] == rb[..k] && job.B()[k..c.lenB] == rb[k..];
    NotBeforeLastA(job.lt, rb[k..], s[job.baseA..c.ca + 1]);
  }

  /** What is left of either run is sorted, so a gallop over it is exact. */
  lemma RestSplits<T(!new)>(job: Job<T>, s: seq<T>, c: Cursors, key: T)
    requires Kept(job, s, c) && job.good
    ensures HighSuffix(job.lt, s[job.baseA..job.baseA + c.lenA], key)
    ensures LowPrefix(job.lt, job.B()[0..0 + c.lenB], key)
  {
    hide Holds, WeakOrder;
    RestSorted(job, s, c);
    SortedSplits(job.lt, s[job.baseA..c.ca + 1], key);
    SortedSplits(job.lt, job.B()[..c.lenB], key);
    assert job.B()[0..0 + c.lenB] == job.B()[..c.lenB];
  }

  /** Moves the part of A that the last of B comes before. */
  method GallopA<T(!new)>(w: array<T>, cmp: Comparator<T>, tmp: seq<T>, c0: Cursors, baseA: nat, ghost job: Job<T>)
    returns (r: Outcome<Phase>, c: Cursors, wa: nat)
    requires Kept(job, w[..], c0) && tmp == job.B() && c0.Fit(More) && baseA == job.baseA && w.Length <= ISIZE_MAX
    requires job.good ==> cmp.Orders(job.lt)
    modifies w, cmp
    ensures r.Thrown? ==> cmp.Threw()
    ensures r.Ok? ==> Kept(job, w[..], c) && c.Fit(r.value) && c.Left() <= c0.Left()
    ensures r.Ok? && !r.value.More? ==> c.Left() < c0.Left()
    ensures r.Ok? && r.value.More? && job.good ==> NoneBefore(job.lt, [tmp[c.ct]], w[..][baseA..baseA + c.lenA])
  {
    hide Holds, WeakOrder, AllBefore, NoneBefore, HighSuffix, RightSplit, Overwritten;
    c, wa := c0, 0;
    var key := tmp[c.ct];
    ghost var s := w[..];
    if job.good {
      RestSplits(job, s, c, key);
    }
    var k :- GallopRight(w[..], cmp, key, baseA, c.lenA, c.lenA - 1, job.lt);
    wa := c.lenA - k;
    if job.good {
      TailOfA(job, s, c, k);
    }
    if wa > 0 {
      MoveWithin(w, c.ca - wa + 1, c.dest - wa + 1, wa);
      StepA(job, s, w[..], c, wa);
      OutsideBlock(s, c.dest - wa + 1, s[c.ca - wa + 1..c.ca + 1], baseA, baseA + k);
      c := c.TakeA(wa);
      if c.lenA == 0 {
        return Ok(Succeed), c, wa;
      }
    }
    return Ok(More), c, wa;
  }

  /** Moves the part of B that does not come before the last of A. */
  method GallopB<T(!new)>(w: array<T>, cmp: Comparator<T>, tmp: seq<T>, c0: Cursors, ghost job: Job<T>)
    returns (r: Outcome<Phase>, c: Cursors, wb: nat)
    requires Kept(job, w[..], c0) && tmp == job.B() && c0.Fit(More) && w.Length <= ISIZE_MAX
    requires job.good ==> cmp.Orders(job.lt)
    modifies w, cmp
    ensures r.Thrown? ==> cmp.Threw()
    ensures r.Ok? ==> Kept(job, w[..], c) && c.Fit(r.value) && c.Left() <= c0.Left()
    ensures r.Ok? && r.value.More? && job.good ==> AllBefore(job.lt, job.B()[..c.lenB], [w[c.ca]])
  {
    hide Holds, WeakOrder, AllBefore, NoneBefore, LowPrefix, LeftSplit, Overwritten;
    c, wb := c0, 0;
    var key := w[c.ca];
    ghost var s := w[..];
    if job.good {
      RestSplits(job, s, c, key);
    }
    var k :- GallopLeft(tmp, cmp, key, 0, c.lenB, c.lenB - 1, job.lt);
    wb := c.lenB - k;
    assert job.B()[0..0 + c.lenB] == job.B()[..c.lenB];
    if job.good {
      TailOfB(job, s, c, k);
    }
    if wb > 0 {
      WriteBlock(w, c.dest - wb + 1, tmp[c.ct - wb + 1..c.ct + 1]);
      StepB(job, s, w[..], c, wb);
      OutsideBlock(s, c.dest - wb + 1, tmp[c.ct - wb + 1..c.ct + 1], c.ca, c.ca + 1);
      assert w[..][c.ca] == w[..][c.ca..c.ca + 1][0] == s[c.ca];
      c := c.TakeB(wb);
      if c.lenB == 1 {
        return Ok(Copy), c, wb;
      }
      if c.lenB == 0 {
        return Ok(Succeed), c, wb;
      }
    }
    return Ok(More), c, wb;
  }

  /** One round of galloping: a block of A, one of B, a block of B, one of A. */
  method GallopRound<T(!new)>(w: array<T>, cmp: Comparator<T>, tmp: seq<T>, c0: Cursors, baseA: nat, ghost job: Job<T>)
    returns (r: Outcome<Phase>, c: Cursors, wa: nat, wb: nat)
    requires Kept(job, w[..], c0) && tmp == job.B() && c0.Fit(More) && baseA == job.baseA && w.Length <= ISIZE_MAX
    requires job.good ==> cmp.Orders(job.lt)
    modifies w, cmp
    ensures r.Thrown? ==> cmp.Threw()
    ensures r.Ok? ==> Kept(job, w[..], c) && c.Fit(r.value) && c.Left() < c0.Left()
  {
    hide Holds, WeakOrder, AllBefore, NoneBefore;
    c, wa, wb := c0, 0, 0;
    r, c, wa := GallopA(w, cmp, tmp, c, baseA, job);
    if r.Thrown? || !r.value.More? {
      return;
    }
    ghost var s := w[..];
    w[c.dest] := tmp[c.ct];
    assert s[baseA..baseA + c.lenA] == s[job.baseA..c.ca + 1];
    StepOneB(job, s, w[..], c);
    c := c.TakeB(1);
    if c.lenB == 1 {
      return Ok(Copy), c, wa, wb;
    }
    r, c, wb := GallopB(w, cmp, tmp, c, job);
    if r.Thrown? || !r.value.More? {
      return;
    }
    s := w[..];
    w[c.dest] := w[c.ca];
    StepOneA(job, s, w[..], c);
    c := c.TakeA(1);
    if c.lenA == 0 {
      return Ok(Succeed), c, wa, wb;
    }
    return Ok(More), c, wa, wb;
  }

  /** Nothing has moved yet, but run B is also in the buffer. */
  lemma Started<T(!new)>(job: Job<T>)
    requires job.Valid()
    ensures Kept(job, job.was, At(job.End() - 1, job.Mid() - 1, job.lenA, job.lenB - 1, job.lenB))
  {
    hide Ready, Back;
    assert job.was[job.End()..job.End()] == [] && job.B()[..job.lenB] == job.B();
    BackStart(job.lt, job.good, job.A(), job.B());
  }

  /** Empties the buffer; a lone first element of B goes before all that is left of A. */
  method Finish<T(!new)>(w: array<T>, tmp: seq<T>, c0: Cursors, end: Phase, ghost job: Job<T>)
    requires Kept(job, w[..], c0) && tmp == job.B() && c0.Fit(end) && !end.More?
    modifies w
    ensures SortedWithin(job.lt, job.good, job.was, w[..], job.baseA, job.End())
  {
    hide Holds, WeakOrder, SortedWithin, AllBefore, Overwritten, Ready;
    var c := c0;
    ghost var s := w[..];
    match end
    case Succeed =>
      if c.lenB > 0 {
        WriteBlock(w, c.dest - (c.lenB - 1), tmp[..c.lenB]);
        assert tmp[..c.lenB] == job.B()[c.lenB - c.lenB..c.lenB];
        StepB(job, s, w[..], c, c.lenB);
        c := c.TakeB(c.lenB);
      }
      Finished(job, w[..], c);
    case Copy =>
      FirstOfB(job, s, c);
      MoveWithin(w, c.ca - c.lenA + 1, c.dest - c.lenA + 1, c.lenA);
      StepA(job, s, w[..], c, c.lenA);
      c := c.TakeA(c.lenA);
      s := w[..];
      w[c.dest] := tmp[c.ct];
      StepOneB(job, s, w[..], c);
      Finished(job, w[..], c.TakeB(1));
  }

  lemma FirstOfB<T(!new)>(job: Job<T>, s: seq<T>, c: Cursors)
    requires Kept(job, s, c) && c.lenB == 1
    ensures job.good ==> AllBefore(job.lt, job.B()[..1], s[job.baseA..c.ca + 1])
  {
    hide Back, WeakOrder;
    if job.good {
      var ra := s[job.baseA..c.ca + 1];
      assert ra == s[..c.ca + 1][job.baseA..] == job.was[..c.ca + 1][job.baseA..] == job.A()[..c.lenA];
      forall j | 0 <= j < |ra| ensures job.lt(job.B()[0], ra[j]) {
        ReadyFirst(job.lt, job.A(), job.B(), j);
      }
    }
  }

  /** Merges the neighbouring runs A and B; `minGallop` adapts to how well galloping pays.
      Always a permutation; for a consistent comparator and trimmed runs, sorted and stable. */
  method MergeHigh<T(!new)>(w: array<T>, cmp: Comparator<T>, baseA: nat, lenA: nat, baseB: nat, lenB: nat, minGallop: nat,
                            ghost lt: (T, T) -> bool)
    returns (r: Outcome<nat>)
    requires 0 < lenA && 0 < lenB && baseB == baseA + lenA && baseB + lenB <= w.Length <= ISIZE_MAX
    requires 0 < minGallop
    modifies w, cmp
    ensures r.Thrown? ==> cmp.Threw()
    ensures r.Ok? ==> 0 < r.value
    ensures r.Ok? ==>
              SortedWithin(lt, cmp.Orders(lt) && Ready(lt, old(w[baseA..baseB]), old(w[baseB..baseB + lenB])),
                           old(w[..]), w[..], baseA, baseB + lenB)
  {
    hide Holds, WeakOrder, SortedWithin, Sorted, AllBefore;
    var tmp := w[baseB..baseB + lenB];
    ghost var good := cmp.Orders(lt) && Ready(lt, w[baseA..baseB], tmp);
    ghost var job := Job(lt, good, w[..], baseA, lenA, lenB);
    assert tmp == job.B() && w[baseA..baseB] == job.A();
    var mg, kept := minGallop, minGallop;
    var c := At(baseB + lenB - 1, baseA + lenA - 1, lenA, lenB - 1, lenB);
    Started(job);
    if good {
      LastOfA(job);
    }
    w[c.dest] := w[c.ca];
    StepOneA(job, job.was, w[..], c);
    c := c.TakeA(1);
    var phase := if c.lenA == 0 then Succeed else if c.lenB == 1 then Copy else More;
    while phase.More?
      invariant Kept(job, w[..], c) && c.Fit(phase) && 0 < mg && 0 < kept
      decreases c.Left()
    {
      ghost var left := c.Left();
      var wa, wb;
      phase, c, wa, wb :- OneByOne(w, cmp, tmp, c, mg, job);
      if phase.More? {
        mg := mg + 1;
        var first := true;
        while phase.More? && (wa >= SORT_MIN_GALLOP || wb >= SORT_MIN_GALLOP || first)
          invariant Kept(job, w[..], c) && c.Fit(phase) && 0 < mg && 0 < kept
          invariant c.Left() < left
          decreases c.Left()
        {
          first := false;
          mg := if mg - 1 > 1 then mg - 1 else 1;
          kept := mg;
          phase, c, wa, wb :- GallopRound(w, cmp, tmp, c, baseA, job);
        }
        if phase.More? {
          mg := mg + 1;
          kept := mg;
        }
      }
    }
    Finish(w, tmp, c, phase, job);
    return Ok(kept);
  }

  lemma LastOfA<T(!new)>(job: Job<T>)
    requires job.Valid() && job.good
    ensures AllBefore(job.lt, job.B()[..job.lenB], [job.was[job.Mid() - 1]])
  {
    hide WeakOrder;
    assert job.B()[..job.lenB] == job.B() && job.A()[job.lenA - 1] == job.was[job.Mid() - 1];
  }
}
