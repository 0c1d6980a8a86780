/** What every step of an in-place merge keeps. The three parts in play are the output written so
    far, the rest of run A and the rest of run B; the first run to move is held in a buffer. */
module Merging {
  import opened StableOrder

  const SORT_MIN_GALLOP: nat := 7

  /** How a phase of a merge ends: with both runs still in play, with one of them used up, or with
      one element left to go to the far end of the other run. */
  datatype Phase = More | Succeed | Copy

  /** One merge of the neighbouring runs A and B of the array `was`. `good` says that the
      comparator is a consistent order and that the runs are ready to be merged. */
  datatype Job<!T(!new)> = Job(lt: (T, T) -> bool, good: bool, was: seq<T>, baseA: nat, lenA: nat, lenB: nat) {
    predicate Fits() {
      baseA + lenA + lenB <= |was|
    }

    function Mid(): nat { baseA + lenA }

    function End(): nat { baseA + lenA + lenB }

    function A(): seq<T>
      requires Fits()
    {
      was[baseA..Mid()]
    }

    function B(): seq<T>
      requires Fits()
    {
      was[Mid()..End()]
    }

    ghost predicate Valid() {
      Fits() && (good ==> Ready(lt, A(), B()))
    }
  }

  /** Trimmed by galloping: both runs sorted, the first of B before the first of A, and all of B
      before the last of A. */
  ghost predicate Ready<T(!new)>(lt: (T, T) -> bool, a: seq<T>, b: seq<T>) {
    && WeakOrder(lt) && Sorted(lt, a) && Sorted(lt, b) && a != [] && b != []
    && lt(b[0], a[0])
    && forall i :: 0 <= i < |b| ==> lt(b[i], a[|a| - 1])
  }

  /** Everything in u comes before everything in v. */
  ghost predicate AllBefore<T>(lt: (T, T) -> bool, u: seq<T>, v: seq<T>) {
    forall i, j :: 0 <= i < |u| && 0 <= j < |v| ==> lt(u[i], v[j])
  }

  /** Nothing in u comes before anything in v. */
  ghost predicate NoneBefore<T>(lt: (T, T) -> bool, u: seq<T>, v: seq<T>) {
    forall i, j :: 0 <= i < |u| && 0 <= j < |v| ==> !lt(u[i], v[j])
  }

  lemma ReadyFirst<T(!new)>(lt: (T, T) -> bool, a: seq<T>, b: seq<T>, i: int)
    requires Ready(lt, a, b) && 0 <= i < |a|
    ensures lt(b[0], a[i])
  {
    if i > 0 {
      Cotransitive(lt, b[0], a[i], a[0]);
    }
  }

  /** Merging from the front: out is final, ra and rb are what is left of a and b. */
  ghost predicate Front<T(!new)>(lt: (T, T) -> bool, good: bool, a: seq<T>, b: seq<T>, out: seq<T>, ra: seq<T>, rb: seq<T>) {
    && multiset(out + ra + rb) == multiset(a + b)
    && (good ==> Merge(lt, a, b) == out + Merge(lt, ra, rb))
  }

  /** Merging from the back. */
  ghost predicate Back<T(!new)>(lt: (T, T) -> bool, good: bool, a: seq<T>, b: seq<T>, ra: seq<T>, rb: seq<T>, out: seq<T>) {
    && multiset(ra + rb + out) == multiset(a + b)
    && (good ==> Merge(lt, a, b) == Merge(lt, ra, rb) + out)
  }

  lemma {:induction false} MergeTakesA<T>(lt: (T, T) -> bool, ra: seq<T>, rb: seq<T>, k: nat)
    requires k <= |ra|
    requires rb != [] ==> forall i :: 0 <= i < k ==> !lt(rb[0], ra[i])
    ensures Merge(lt, ra, rb) == ra[..k] + Merge(lt, ra[k..], rb)
  {
    if rb == [] {
      assert ra == ra[..k] + ra[k..];
    } else if k > 0 {
      MergeTakesA(lt, ra[1..], rb, k - 1);
      assert ra[1..][k - 1..] == ra[k..] && ra[..k] == [ra[0]] + ra[1..][..k - 1];
    }
  }

  lemma {:induction false} MergeTakesB<T>(lt: (T, T) -> bool, ra: seq<T>, rb: seq<T>, k: nat)
    requires k <= |rb|
    requires ra != [] ==> forall i :: 0 <= i < k ==> lt(rb[i], ra[0])
    ensures Merge(lt, ra, rb) == rb[..k] + Merge(lt, ra, rb[k..])
  {
    if ra == [] {
      assert rb == rb[..k] + rb[k..];
    } else if k > 0 {
      MergeTakesB(lt, ra, rb[1..], k - 1);
      assert rb[1..][k - 1..] == rb[k..] && rb[..k] == [rb[0]] + rb[1..][..k - 1];
      assert [rb[0]] + (rb[1..][..k - 1] + Merge(lt, ra, rb[k..])) == rb[..k] + Merge(lt, ra, rb[k..]);
    }
  }

  lemma {:induction false} MergeEndsWithA<T>(lt: (T, T) -> bool, ra: seq<T>, x: T, rb: seq<T>)
    requires forall i :: 0 <= i < |rb| ==> lt(rb[i], x)
    ensures Merge(lt, ra + [x], rb) == Merge(lt, ra, rb) + [x]
    decreases |ra| + |rb|
  {
    if rb == [] {
    } else if ra == [] {
      MergeEndsWithA(lt, ra, x, rb[1..]);
    } else if lt(rb[0], ra[0]) {
      MergeEndsWithA(lt, ra, x, rb[1..]);
    } else {
      MergeEndsWithA(lt, ra[1..], x, rb);
      assert (ra + [x])[1..] == ra[1..] + [x];
    }
  }

  lemma {:induction false} MergeEndsWithB<T>(lt: (T, T) -> bool, ra: seq<T>, rb: seq<T>, x: T)
    requires forall i :: 0 <= i < |ra| ==> !lt(x, ra[i])
    ensures Merge(lt, ra, rb + [x]) == Merge(lt, ra, rb) + [x]
    decreases |ra| + |rb|
  {
    if ra == [] {
    } else if rb == [] {
      MergeEndsWithB(lt, ra[1..], rb, x);
    } else if lt(rb[0], ra[0]) {
      MergeEndsWithB(lt, ra, rb[1..], x);
      assert (rb + [x])[1..] == rb[1..] + [x];
    } else {
      MergeEndsWithB(lt, ra[1..], rb, x);
    }
  }

  lemma {:induction false} MergeEndsWithManyA<T>(lt: (T, T) -> bool, ra: seq<T>, rb: seq<T>, k: nat)
    requires k <= |ra|
    requires forall i, j :: 0 <= i < |rb| && k <= j < |ra| ==> lt(rb[i], ra[j])
    ensures Merge(lt, ra, rb) == Merge(lt, ra[..k], rb) + ra[k..]
    decreases |ra|
  {
    if k < |ra| {
      var n := |ra| - 1;
      assert ra == ra[..n] + [ra[n]];
      MergeEndsWithA(lt, ra[..n], ra[n], rb);
      MergeEndsWithManyA(lt, ra[..n], rb, k);
      assert ra[..n][..k] == ra[..k] && ra[k..] == ra[..n][k..] + [ra[n]];
    } else {
      assert ra[..k] == ra;
    }
  }

  lemma {:induction false} MergeEndsWithManyB<T>(lt: (T, T) -> bool, ra: seq<T>, rb: seq<T>, k: nat)
    requires k <= |rb|
    requires forall i, j :: 0 <= i < |ra| && k <= j < |rb| ==> !lt(rb[j], ra[i])
    ensures Merge(lt, ra, rb) == Merge(lt, ra, rb[..k]) + rb[k..]
    decreases |rb|
  {
    if k < |rb| {
      var n := |rb| - 1;
      assert rb == rb[..n] + [rb[n]];
      MergeEndsWithB(lt, ra, rb[..n], rb[n]);
      MergeEndsWithManyB(lt, ra, rb[..n], k);
      assert rb[..n][..k] == rb[..k] && rb[k..] == rb[..n][k..] + [rb[n]];
    } else {
      assert rb[..k] == rb;
    }
  }

  lemma PermSwap<T>(x: seq<T>, u: seq<T>, v: seq<T>, y: seq<T>)
    ensures multiset(x + u + v + y) == multiset(x + v + u + y)
  {
  }

  lemma FrontStart<T(!new)>(lt: (T, T) -> bool, good: bool, a: seq<T>, b: seq<T>)
    ensures Front(lt, good, a, b, [], a, b)
  {
    assert [] + a + b == a + b;
    assert [] + Merge(lt, a, b) == Merge(lt, a, b);
  }

  lemma BackStart<T(!new)>(lt: (T, T) -> bool, good: bool, a: seq<T>, b: seq<T>)
    ensures Back(lt, good, a, b, a, b, [])
  {
    assert a + b + [] == a + b;
    assert Merge(lt, a, b) + [] == Merge(lt, a, b);
  }

  lemma MergePassesA<T(!new)>(lt: (T, T) -> bool, ra: seq<T>, rb: seq<T>, k: nat)
    requires k <= |ra| && (rb != [] ==> NoneBefore(lt, [rb[0]], ra[..k]))
    ensures Merge(lt, ra, rb) == ra[..k] + Merge(lt, ra[k..], rb)
  {
    hide Merge;
    if rb != [] {
      forall i | 0 <= i < k ensures !lt(rb[0], ra[i]) {
        assert ra[i] == ra[..k][i] && [rb[0]][0] == rb[0];
      }
    }
    MergeTakesA(lt, ra, rb, k);
  }

  lemma MergePassesB<T(!new)>(lt: (T, T) -> bool, ra: seq<T>, rb: seq<T>, k: nat)
    requires k <= |rb| && (ra != [] ==> AllBefore(lt, rb[..k], [ra[0]]))
    ensures Merge(lt, ra, rb) == rb[..k] + Merge(lt, ra, rb[k..])
  {
    hide Merge;
    if ra != [] {
      forall i | 0 <= i < k ensures lt(rb[i], ra[0]) {
        assert rb[i] == rb[..k][i] && [ra[0]][0] == ra[0];
      }
    }
    MergeTakesB(lt, ra, rb, k);
  }

  lemma FrontTakesA<T(!new)>(lt: (T, T) -> bool, good: bool, a: seq<T>, b: seq<T>, out: seq<T>, ra: seq<T>, rb: seq<T>, k: nat)
    requires Front(lt, good, a, b, out, ra, rb) && k <= |ra|
    requires good && rb != [] ==> NoneBefore(lt, [rb[0]], ra[..k])
    ensures Front(lt, good, a, b, out + ra[..k], ra[k..], rb)
  {
    hide Merge, NoneBefore;
    var u, v := ra[..k], ra[k..];
    assert out + ra + rb == out + u + v + rb;
    if good {
      MergePassesA(lt, ra, rb, k);
      assert out + (u + Merge(lt, v, rb)) == out + u + Merge(lt, v, rb);
    }
  }

  lemma FrontTakesB<T(!new)>(lt: (T, T) -> bool, good: bool, a: seq<T>, b: seq<T>, out: seq<T>, ra: seq<T>, rb: seq<T>, k: nat)
    requires Front(lt, good, a, b, out, ra, rb) && k <= |rb|
    requires good && ra != [] ==> AllBefore(lt, rb[..k], [ra[0]])
    ensures Front(lt, good, a, b, out + rb[..k], ra, rb[k..])
  {
    hide Merge, AllBefore;
    var u, v := rb[..k], rb[k..];
    assert out + ra + rb == out + ra + u + v;
    PermSwap(out, ra, u, v);
    if good {
      MergePassesB(lt, ra, rb, k);
      assert out + (u + Merge(lt, ra, v)) == out + u + Merge(lt, ra, v);
    }
  }

  lemma BackTakesA<T(!new)>(lt: (T, T) -> bool, good: bool, a: seq<T>, b: seq<T>, ra: seq<T>, rb: seq<T>, out: seq<T>, k: nat)
    requires Back(lt, good, a, b, ra, rb, out) && k <= |ra|
    requires good ==> AllBefore(lt, rb, ra[k..])
    ensures Back(lt, good, a, b, ra[..k], rb, ra[k..] + out)
  {
    hide Merge;
    var u, v := ra[..k], ra[k..];
    assert ra + rb + out == u + v + rb + out;
    PermSwap(u, v, rb, out);
    assert u + rb + v + out == u + rb + (v + out);
    if good {
      forall i, j | 0 <= i < |rb| && k <= j < |ra| ensures lt(rb[i], ra[j]) {
        assert ra[j] == ra[k..][j - k];
      }
      MergeEndsWithManyA(lt, ra, rb, k);
      assert Merge(lt, u, rb) + v + out == Merge(lt, u, rb) + (v + out);
    }
  }

  lemma BackTakesB<T(!new)>(lt: (T, T) -> bool, good: bool, a: seq<T>, b: seq<T>, ra: seq<T>, rb: seq<T>, out: seq<T>, k: nat)
    requires Back(lt, good, a, b, ra, rb, out) && k <= |rb|
    requires good ==> NoneBefore(lt, rb[k..], ra)
    ensures Back(lt, good, a, b, ra, rb[..k], rb[k..] + out)
  {
    hide Merge;
    var u, v := rb[..k], rb[k..];
    assert ra + rb + out == ra + u + (v + out);
    if good {
      forall i, j | 0 <= i < |ra| && k <= j < |rb| ensures !lt(rb[j], ra[i]) {
        assert rb[j] == rb[k..][j - k];
      }
      MergeEndsWithManyB(lt, ra, rb, k);
      assert Merge(lt, ra, u) + v + out == Merge(lt, ra, u) + (v + out);
    }
  }

  lemma FrontDone<T(!new)>(lt: (T, T) -> bool, good: bool, a: seq<T>, b: seq<T>, out: seq<T>, rb: seq<T>)
    requires Front(lt, good, a, b, out, [], rb)
    ensures multiset(out + rb) == multiset(a + b)
    ensures good ==> Merge(lt, a, b) == out + rb
  {
    assert out + [] + rb == out + rb;
  }

  lemma BackDone<T(!new)>(lt: (T, T) -> bool, good: bool, a: seq<T>, b: seq<T>, ra: seq<T>, out: seq<T>)
    requires Back(lt, good, a, b, ra, [], out)
    ensures multiset(ra + out) == multiset(a + b)
    ensures good ==> Merge(lt, a, b) == ra + out
  {
    assert ra + [] + out == ra + out;
  }

  /** A merge that has come to an end has sorted the two runs where they stand. */
  lemma MergedWithin<T(!new)>(job: Job<T>, s: seq<T>)
    requires job.Valid() && |s| == |job.was|
    requires s[..job.baseA] == job.was[..job.baseA] && s[job.End()..] == job.was[job.End()..]
    requires multiset(s[job.baseA..job.End()]) == multiset(job.A() + job.B())
    requires job.good ==> s[job.baseA..job.End()] == Merge(job.lt, job.A(), job.B())
    ensures SortedWithin(job.lt, job.good, job.was, s, job.baseA, job.End())
  {
    assert job.was[job.baseA..job.End()] == job.A() + job.B();
    if job.good {
      MergeSorts(job.lt, job.A(), job.B());
    }
  }
}
