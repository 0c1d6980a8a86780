/** The stack of pending runs: what the collapse rule keeps, and how high the stack can get. */
module RunStack {
  import opened Basics

  const SORT_RUNS: nat := 85
  const MAX_ARRAY: nat := 0x100_0000

  datatype Run = Run(base: nat, len: nat) {
    function End(): nat { base + len }
  }

  /** The runs are non-empty and cover 0..end without gap or overlap. */
  ghost predicate Tiles(runs: seq<Run>, end: nat) {
    && (forall i :: 0 <= i < |runs| ==> runs[i].len > 0)
    && (forall i :: 0 < i < |runs| ==> runs[i].base == runs[i - 1].End())
    && (if runs == [] then end == 0 else runs[0].base == 0 && runs[|runs| - 1].End() == end)
  }

  lemma {:induction false} TilesWithin(runs: seq<Run>, end: nat, i: nat)
    requires Tiles(runs, end) && i < |runs|
    ensures runs[i].End() <= end
    decreases |runs| - i
  {
    if i + 1 < |runs| {
      TilesWithin(runs, end, i + 1);
      assert runs[i + 1].base == runs[i].End();
    }
  }

  /** Each run is longer than the two above it together, as far as entry n looks back. */
  predicate RunInvariant(runs: seq<Run>, n: nat)
    requires n < |runs|
  {
    n < 2 || runs[n - 2].len > runs[n - 1].len + runs[n].len
  }

  ghost predicate Falls(runs: seq<Run>, n: nat)
    requires n < |runs|
  {
    n < 1 || runs[n - 1].len > runs[n].len
  }

  /** The rule holds at every entry up to n. */
  ghost predicate CollapsedTo(runs: seq<Run>, n: int) {
    forall i :: 0 <= i <= n && i < |runs| ==> RunInvariant(runs, i) && Falls(runs, i)
  }

  ghost predicate Collapsed(runs: seq<Run>) {
    CollapsedTo(runs, |runs| - 1)
  }

  /** Runs i and i+1 become one. */
  ghost function Joined(runs: seq<Run>, i: nat): seq<Run>
    requires i + 1 < |runs|
  {
    runs[..i] + [Run(runs[i].base, runs[i].len + runs[i + 1].len)] + runs[i + 2..]
  }

  lemma JoinedTiles(runs: seq<Run>, end: nat, i: nat)
    requires Tiles(runs, end) && i + 1 < |runs|
    ensures Tiles(Joined(runs, i), end)
  {
    var j := Joined(runs, i);
    assert forall k :: 0 <= k < |j| ==> j[k] == if k < i then runs[k] else if k == i then j[i] else runs[k + 1];
    assert runs[i + 1].base == runs[i].End();
  }

  /** The least length of the k-th run below the top of a collapsed stack. */
  ghost function MinLen(k: nat): nat {
    if k == 0 then 1 else if k == 1 then 2 else MinLen(k - 1) + MinLen(k - 2) + 1
  }

  lemma {:induction false} CollapsedLengths(runs: seq<Run>, end: nat, k: nat)
    requires Tiles(runs, end) && Collapsed(runs) && k < |runs|
    ensures runs[|runs| - 1 - k].len >= MinLen(k)
  {
    var i := |runs| - 1 - k;
    if k >= 1 {
      CollapsedLengths(runs, end, k - 1);
      assert Falls(runs, i + 1);
    }
    if k >= 2 {
      CollapsedLengths(runs, end, k - 2);
      assert RunInvariant(runs, i + 2);
    }
  }

  lemma {:induction false} MinLenGrows(k: nat)
    ensures MinLen(k) >= Power2(k / 2)
    ensures MinLen(k + 1) > MinLen(k)
  {
    if k >= 2 {
      MinLenGrows(k - 2);
      MinLenGrows(k - 1);
    }
  }

  lemma {:induction false} PowerMonotonic(j: nat, k: nat)
    requires j <= k
    ensures Power2(j) <= Power2(k)
  {
    if j < k {
      PowerMonotonic(j, k - 1);
    }
  }

  /** The height is logarithmic in the length covered: the run h-1 below the top is already
      longer than 2 to the power (h-1)/2. */
  lemma StackHeight(runs: seq<Run>, end: nat)
    requires Tiles(runs, end) && Collapsed(runs) && runs != []
    ensures MinLen(|runs| - 1) <= end
    ensures Power2((|runs| - 1) / 2) <= end
  {
    CollapsedLengths(runs, end, |runs| - 1);
    TilesWithin(runs, end, 0);
    MinLenGrows(|runs| - 1);
  }

  lemma PowerAt25()
    ensures Power2(25) == 0x200_0000
  {
    assert Power2(8) == 0x100;
    assert Power2(16) == 0x1_0000;
  }

  /** The reserved entries suffice: even with one run pushed on top of a collapsed stack. */
  lemma StackFits(runs: seq<Run>, end: nat)
    requires Tiles(runs, end) && Collapsed(runs) && end <= MAX_ARRAY
    ensures |runs| + 1 <= SORT_RUNS
  {
    PowerAt25();
    if |runs| >= SORT_RUNS {
      StackHeight(runs, end);
      PowerMonotonic(25, (|runs| - 1) / 2);
    }
  }
}
