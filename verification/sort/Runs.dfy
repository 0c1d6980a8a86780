/** Making runs: counting (and reversing) the run that is there, and extending a short one by
    binary insertion. */
module Runs {
  import opened StableOrder
  import opened Comparators
  import opened Gallop

  lemma StrictTransitive<T(!new)>(lt: (T, T) -> bool, x: T, y: T, z: T)
    requires WeakOrder(lt) && lt(x, y) && lt(y, z)
    ensures lt(x, z)
  {
    Cotransitive(lt, x, z, y);
  }

  ghost predicate Descending<T>(lt: (T, T) -> bool, s: seq<T>) {
    forall i, j :: 0 <= i < j < |s| ==> lt(s[j], s[i])
  }

  ghost function Reversed<T>(s: seq<T>): (r: seq<T>)
    ensures |r| == |s|
    ensures forall i :: 0 <= i < |s| ==> r[i] == s[|s| - 1 - i]
  {
    if s == [] then [] else Reversed(s[1..]) + [s[0]]
  }

  /** Reversing is a stable sort exactly because a descending run is strict. */
  lemma {:induction false} ReversedSorts<T(!new)>(lt: (T, T) -> bool, good: bool, s: seq<T>)
    requires good ==> WeakOrder(lt) && Descending(lt, s)
    ensures SortOf(lt, good, s, Reversed(s))
  {
    if s != [] {
      var x, r := [s[0]], Reversed(s[1..]);
      ReversedSorts(lt, good, s[1..]);
      assert s == x + s[1..];
      if good {
        ReversedBelow(lt, s, r);
        HeadMoves(lt, x, s[1..], r);
      }
    }
  }

  lemma ReversedBelow<T(!new)>(lt: (T, T) -> bool, s: seq<T>, r: seq<T>)
    requires WeakOrder(lt) && Descending(lt, s) && s != [] && r == Reversed(s[1..]) && Sorted(lt, r)
    ensures Sorted(lt, r + [s[0]])
    ensures forall j :: 0 <= j < |r| ==> lt(r[j], s[0])
  {
  }

  lemma HeadMoves<T(!new)>(lt: (T, T) -> bool, x: seq<T>, s: seq<T>, r: seq<T>)
    requires WeakOrder(lt) && |x| == 1 && SameClasses(lt, s, r)
    requires forall j :: 0 <= j < |r| ==> lt(r[j], x[0])
    ensures SameClasses(lt, x + s, r + x)
  {
    assert SameClasses(lt, x, x);
    SameClassesConcat(lt, x, x, s, r);
    ClassSwap(lt, x, r);
    forall y ensures Class(lt, y, x + s) == Class(lt, y, r + x) {
      assert Class(lt, y, x + s) == Class(lt, y, x + r);
    }
  }

  method ReverseRange<T>(w: array<T>, lo: nat, hi: nat)
    requires lo <= hi <= w.Length
    modifies w
    ensures w[..] == old(w[..lo]) + Reversed(old(w[lo..hi])) + old(w[hi..])
  {
    var i, j := lo, hi;
    while i < j
      invariant lo <= i <= hi && j == lo + hi - i && i <= j + 1
      invariant forall k :: 0 <= k < w.Length && (k < lo || i <= k < j || hi <= k) ==> w[k] == old(w[k])
      invariant forall k :: lo <= k < i || (lo <= j <= k < hi) ==> w[k] == old(w[lo + hi - 1 - k])
      decreases j - i
    {
      j := j - 1;
      w[i], w[j] := w[j], w[i];
      i := i + 1;
    }
    ReversedParts(old(w[..]), w[..], lo, hi);
  }

  lemma ReversedParts<T>(was: seq<T>, s: seq<T>, lo: nat, hi: nat)
    requires lo <= hi <= |was| == |s|
    requires forall k :: 0 <= k < |s| && (k < lo || hi <= k) ==> s[k] == was[k]
    requires forall k :: lo <= k < hi ==> s[k] == was[lo + hi - 1 - k]
    ensures s == was[..lo] + Reversed(was[lo..hi]) + was[hi..]
  {
    var r := Reversed(was[lo..hi]);
    assert forall k :: lo <= k < hi ==> s[k] == r[k - lo];
  }

  /** Counts the run at `lowArg`: the longest the comparator reports as strictly descending, or as
      not descending. */
  method CountRun<T(!new)>(w: array<T>, cmp: Comparator<T>, lowArg: nat, high: nat, ghost lt: (T, T) -> bool)
    returns (r: Outcome<nat>, desc: bool)
    requires lowArg < high <= w.Length
    modifies cmp
    ensures r.Thrown? ==> cmp.Threw()
    ensures r.Ok? ==> 1 <= r.value <= high - lowArg
    ensures r.Ok? && cmp.Orders(lt) ==>
              var run := w[lowArg..lowArg + r.value];
              if desc then Descending(lt, run) else Sorted(lt, run)
  {
    ghost var good := cmp.Orders(lt);
    var low := lowArg + 1;
    desc := false;
    if low == high {
      return Ok(1), false;
    }
    var run := 2;
    var el := w[low];
    var order :- cmp.Compare(el, w[low - 1]);
    desc := order < 0;
    var prev := el;
    for idx := low + 1 to high
      invariant run == idx - lowArg && prev == w[idx - 1]
      invariant good ==> if desc then Descending(lt, w[lowArg..idx]) else Sorted(lt, w[lowArg..idx])
    {
      var cur := w[idx];
      var o :- cmp.Compare(cur, prev);
      if desc {
        if o >= 0 {
          break;
        }
      } else if o < 0 {
        break;
      }
      if good {
        ExtendRun(lt, desc, w[lowArg..idx], cur);
        assert w[lowArg..idx + 1] == w[lowArg..idx] + [cur];
      }
      prev := cur;
      run := run + 1;
    }
    return Ok(run), desc;
  }

  /** Counts the run at `lowArg`, and turns a descending one round. */
  method CountAndMakeRun<T(!new)>(w: array<T>, cmp: Comparator<T>, lowArg: nat, high: nat, ghost lt: (T, T) -> bool)
    returns (r: Outcome<nat>)
    requires lowArg < high <= w.Length
    modifies w, cmp
    ensures r.Thrown? ==> cmp.Threw()
    ensures r.Ok? ==> 1 <= r.value <= high - lowArg
    ensures r.Ok? ==> SortedWithin(lt, cmp.Orders(lt), old(w[..]), w[..], lowArg, lowArg + r.value)
  {
    hide Descending, Sorted, WeakOrder, SortedWithin;
    var desc;
    r, desc := CountRun(w, cmp, lowArg, high, lt);
    if r.Ok? && desc {
      ghost var s := w[..];
      ReverseRange(w, lowArg, lowArg + r.value);
      ReversedWithin(lt, cmp.Orders(lt), s, w[..], lowArg, lowArg + r.value);
    } else if r.Ok? {
      SelfSorted(lt, cmp.Orders(lt), w[..], lowArg, lowArg + r.value);
    }
  }

  lemma ReversedWithin<T(!new)>(lt: (T, T) -> bool, good: bool, s: seq<T>, t: seq<T>, lo: nat, hi: nat)
    requires lo <= hi <= |s|
    requires t == s[..lo] + Reversed(s[lo..hi]) + s[hi..]
    requires good ==> WeakOrder(lt) && Descending(lt, s[lo..hi])
    ensures SortedWithin(lt, good, s, t, lo, hi)
  {
    ReversedSorts(lt, good, s[lo..hi]);
    assert t[lo..hi] == Reversed(s[lo..hi]);
    assert s[..lo] == t[..lo] && s[hi..] == t[hi..];
  }

  lemma ExtendRun<T(!new)>(lt: (T, T) -> bool, desc: bool, run: seq<T>, cur: T)
    requires WeakOrder(lt) && run != []
    requires if desc then Descending(lt, run) else Sorted(lt, run)
    requires desc == lt(cur, run[|run| - 1])
    ensures if desc then Descending(lt, run + [cur]) else Sorted(lt, run + [cur])
  {
    var prev := run[|run| - 1];
    forall i | 0 <= i < |run| - 1 ensures lt(cur, run[i]) == desc {
      if desc {
        StrictTransitive(lt, cur, prev, run[i]);
      } else if lt(cur, run[i]) {
        Cotransitive(lt, cur, prev, run[i]);
      }
    }
  }

  ghost function Inserted<T>(run: seq<T>, k: nat, x: T): seq<T>
    requires k <= |run|
  {
    run[..k] + [x] + run[k..]
  }

  lemma InsertedSorted<T(!new)>(lt: (T, T) -> bool, run: seq<T>, k: nat, x: T)
    requires WeakOrder(lt) && Sorted(lt, run) && RightSplit(lt, run, x, k)
    ensures Sorted(lt, Inserted(run, k, x))
  {
    var s := Inserted(run, k, x);
    forall i, j | 0 <= i < j < |s| ensures !lt(s[j], s[i]) {
      assert s[i] == if i < k then run[i] else if i == k then x else run[i - 1];
      assert s[j] == if j < k then run[j] else if j == k then x else run[j - 1];
    }
  }

  lemma InsertedClasses<T(!new)>(lt: (T, T) -> bool, run: seq<T>, k: nat, x: T)
    requires WeakOrder(lt) && RightSplit(lt, run, x, k)
    ensures SameClasses(lt, run + [x], Inserted(run, k, x))
  {
    var u, v := run[..k], run[k..];
    ClassSwap(lt, v, [x]);
    assert SameClasses(lt, u, u);
    SameClassesConcat(lt, u, u, v + [x], [x] + v);
    assert run + [x] == u + (v + [x]) && Inserted(run, k, x) == u + ([x] + v);
  }

  /** Inserting behind everything that x does not come before keeps the run sorted and stable. */
  lemma InsertedSorts<T(!new)>(lt: (T, T) -> bool, good: bool, run: seq<T>, k: nat, x: T)
    requires k <= |run|
    requires good ==> WeakOrder(lt) && Sorted(lt, run) && RightSplit(lt, run, x, k)
    ensures SortOf(lt, good, run + [x], Inserted(run, k, x))
  {
    hide WeakOrder, Sorted, RightSplit, SameClasses;
    assert run == run[..k] + run[k..];
    if good {
      InsertedSorted(lt, run, k, x);
      InsertedClasses(lt, run, k, x);
    }
  }

  method ShiftIn<T>(w: array<T>, left: nat, start: nat)
    requires left <= start < w.Length
    modifies w
    ensures w[..] == old(w[..left]) + [old(w[start])] + old(w[left..start]) + old(w[start + 1..])
  {
    ghost var s, shifted := w[..], w[..start];
    var pivot := w[start];
    for p := start + 1 downto left + 1
      invariant forall k :: 0 <= k < w.Length && (k < p || start < k) ==> w[k] == s[k]
      invariant forall k :: p <= k <= start ==> w[k] == shifted[k - 1]
    {
      w[p] := w[p - 1];
    }
    w[left] := pivot;
    assert w[..left] == s[..left] && w[start + 1..] == s[start + 1..];
    assert w[left + 1..start + 1] == s[left..start];
    assert w[..] == w[..left] + [w[left]] + w[left + 1..start + 1] + w[start + 1..];
  }

  lemma InsertedWithin<T(!new)>(lt: (T, T) -> bool, good: bool, s: seq<T>, t: seq<T>, low: nat, left: nat, start: nat)
    requires low <= left <= start < |s|
    requires t == s[..left] + [s[start]] + s[left..start] + s[start + 1..]
    requires good ==> WeakOrder(lt) && Sorted(lt, s[low..start]) && RightSplit(lt, s[low..start], s[start], left - low)
    ensures SortedWithin(lt, good, s, t, low, start + 1)
  {
    var run := s[low..start];
    InsertedSorts(lt, good, run, left - low, s[start]);
    assert s[low..start + 1] == run + [s[start]];
    assert t[low..start + 1] == Inserted(run, left - low, s[start]);
    assert s[..low] == t[..low] && s[start + 1..] == t[start + 1..];
  }

  /** The place for w[start] in the sorted part low..start: behind all it does not come before. */
  method InsertionPoint<T(!new)>(w: array<T>, cmp: Comparator<T>, low: nat, start: nat, ghost lt: (T, T) -> bool)
    returns (r: Outcome<nat>)
    requires low <= start < w.Length
    modifies cmp
    ensures r.Thrown? ==> cmp.Threw()
    ensures r.Ok? ==> low <= r.value <= start
    ensures r.Ok? && cmp.Orders(lt) && Sorted(lt, w[low..start]) ==>
              RightSplit(lt, w[low..start], w[start], r.value - low)
  {
    ghost var run := w[low..start];
    var left, right := low, start;
    var pivot := w[start];
    ghost var good := cmp.Orders(lt) && Sorted(lt, run);
    if good {
      SortedSplits(lt, run, pivot);
    }
    while left < right
      invariant low <= left <= right <= start
      invariant good ==> forall i :: 0 <= i < left - low ==> !lt(pivot, run[i])
      invariant good ==> forall i :: right - low <= i < |run| ==> lt(pivot, run[i])
    {
      var mid := left + (right - left) / 2;
      assert w[mid] == run[mid - low];
      var o :- cmp.Compare(pivot, w[mid]);
      if o < 0 {
        right := mid;
      } else {
        left := mid + 1;
      }
    }
    return Ok(left);
  }

  /** Binary insertion in progress: low..high is rearranged, and low..start is sorted already. */
  ghost predicate SortedSoFar<T(!new)>(lt: (T, T) -> bool, good: bool, was: seq<T>, s: seq<T>, low: int, start: int, high: int) {
    && RearrangedWithin(lt, good, was, s, low, high) && low <= start <= high
    && (good ==> Sorted(lt, s[low..start]))
  }

  lemma InsertionStarts<T(!new)>(lt: (T, T) -> bool, s: seq<T>, low: nat, startArg: nat, start: nat, high: nat)
    requires low <= startArg <= high <= |s| && low < high
    requires start == if low == startArg then startArg + 1 else startArg
    ensures SortedSoFar(lt, false, s, s, low, start, high)
    ensures Sorted(lt, s[low..startArg]) ==> SortedSoFar(lt, true, s, s, low, start, high)
  {
    SelfRearranged(lt, true, s, low, high);
  }

  lemma InsertionKeeps<T(!new)>(lt: (T, T) -> bool, good: bool, was: seq<T>, s: seq<T>, t: seq<T>, low: nat, left: nat, start: nat, high: nat)
    requires SortedSoFar(lt, good, was, s, low, start, high) && low <= left <= start < high
    requires t == s[..left] + [s[start]] + s[left..start] + s[start + 1..]
    requires good ==> WeakOrder(lt) && RightSplit(lt, s[low..start], s[start], left - low)
    ensures SortedSoFar(lt, good, was, t, low, start + 1, high)
  {
    hide Sorted, WeakOrder, RightSplit, Rearranged;
    InsertedWithin(lt, good, s, t, low, left, start);
    RearrangedInside(lt, good, was, s, t, low, low, start + 1, high);
  }

  /** Extends the sorted part low..startArg to low..high, one binary insertion at a time. */
  method BinaryInsertionSort<T(!new)>(w: array<T>, cmp: Comparator<T>, low: nat, startArg: nat, high: nat,
                                      ghost lt: (T, T) -> bool)
    returns (r: Outcome<()>)
    requires low <= startArg <= high <= w.Length && low < high
    modifies w, cmp
    ensures r.Thrown? ==> cmp.Threw()
    ensures r.Ok? ==>
              SortedWithin(lt, cmp.Orders(lt) && Sorted(lt, old(w[low..startArg])), old(w[..]), w[..], low, high)
  {
    hide WeakOrder, Sorted, RightSplit, RearrangedWithin;
    ghost var was := w[..];
    ghost var good := cmp.Orders(lt) && Sorted(lt, was[low..startArg]);
    assert was[low..startArg] == w[low..startArg];
    var start := if low == startArg then startArg + 1 else startArg;
    InsertionStarts(lt, was, low, startArg, start, high);
    while start < high
      invariant low < start <= high && w.Length == |was|
      invariant SortedSoFar(lt, good, was, w[..], low, start, high)
    {
      ghost var s := w[..];
      assert s[low..start] == w[low..start];
      var left :- InsertionPoint(w, cmp, low, start, lt);
      ShiftIn(w, left, start);
      InsertionKeeps(lt, good, was, s, w[..], low, left, start, high);
      start := start + 1;
    }
    return Ok(());
  }
}
