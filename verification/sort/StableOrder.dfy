/** Orders given by a "comes before" relation, and what a stable rearrangement of a
    sequence is.

    `lt(x, y)` stands for "the comparator answers a negative number for (x, y)".
*/
module StableOrder {

  /** Names three elements, so that negative transitivity is only used where it is asked for. */
  ghost predicate Chain<T>(x: T, y: T, z: T) { true }

  /** A strict weak order: asymmetric, and whatever lies strictly below z lies below everything
      that does not lie below z. */
  ghost predicate WeakOrder<T(!new)>(lt: (T, T) -> bool) {
    && (forall x, y :: lt(x, y) ==> !lt(y, x))
    && (forall x, y, z {:trigger Chain(x, y, z)} :: Chain(x, y, z) && lt(x, z) ==> lt(x, y) || lt(y, z))
  }

  lemma Cotransitive<T(!new)>(lt: (T, T) -> bool, x: T, y: T, z: T)
    requires WeakOrder(lt) && lt(x, z)
    ensures lt(x, y) || lt(y, z)
  {
    assert Chain(x, y, z);
  }

  /** No element comes before an earlier one. */
  ghost predicate Sorted<T>(lt: (T, T) -> bool, s: seq<T>) {
    forall i, j :: 0 <= i < j < |s| ==> !lt(s[j], s[i])
  }

  ghost predicate Equivalent<T>(lt: (T, T) -> bool, x: T, y: T) {
    !lt(x, y) && !lt(y, x)
  }

  /** The subsequence of the elements that the order cannot tell from x. */
  ghost function Class<T>(lt: (T, T) -> bool, x: T, s: seq<T>): (r: seq<T>) {
    if s == [] then []
    else (if Equivalent(lt, x, s[0]) then [s[0]] else []) + Class(lt, x, s[1..])
  }

  /** Elements that the order cannot tell apart keep their order. */
  ghost predicate SameClasses<T(!new)>(lt: (T, T) -> bool, s: seq<T>, t: seq<T>) {
    forall x :: Class(lt, x, s) == Class(lt, x, t)
  }

  /** t is a permutation of s; if the comparator is consistent, a stable one. */
  ghost predicate Rearranged<T(!new)>(lt: (T, T) -> bool, good: bool, s: seq<T>, t: seq<T>) {
    && multiset(s) == multiset(t)
    && (good ==> SameClasses(lt, s, t))
  }

  /** What a sort promises: always a permutation; for a consistent comparator sorted and stable. */
  ghost predicate SortOf<T(!new)>(lt: (T, T) -> bool, good: bool, s: seq<T>, t: seq<T>) {
    && Rearranged(lt, good, s, t)
    && (good ==> Sorted(lt, t))
  }

  /** `t` is `s` with the part at lo..hi rearranged. */
  ghost predicate RearrangedWithin<T(!new)>(lt: (T, T) -> bool, good: bool, s: seq<T>, t: seq<T>, lo: int, hi: int) {
    && |s| == |t|
    && 0 <= lo <= hi <= |s|
    && s[..lo] == t[..lo]
    && s[hi..] == t[hi..]
    && Rearranged(lt, good, s[lo..hi], t[lo..hi])
  }

  /** `t` is `s` with the part at lo..hi sorted. */
  ghost predicate SortedWithin<T(!new)>(lt: (T, T) -> bool, good: bool, s: seq<T>, t: seq<T>, lo: int, hi: int) {
    && RearrangedWithin(lt, good, s, t, lo, hi)
    && (good ==> Sorted(lt, t[lo..hi]))
  }

  lemma Associate<T>(a: seq<T>, b: seq<T>, c: seq<T>)
    ensures a + (b + c) == (a + b) + c
  {
  }

  lemma {:induction false} ClassConcat<T>(lt: (T, T) -> bool, x: T, a: seq<T>, b: seq<T>)
    ensures Class(lt, x, a + b) == Class(lt, x, a) + Class(lt, x, b)
  {
    if a == [] {
      assert a + b == b;
    } else {
      assert (a + b)[0] == a[0] && (a + b)[1..] == a[1..] + b;
      ClassConcat(lt, x, a[1..], b);
      var head := if Equivalent(lt, x, a[0]) then [a[0]] else [];
      assert Class(lt, x, a) == head + Class(lt, x, a[1..]);
      assert Class(lt, x, a + b) == head + Class(lt, x, a[1..] + b);
      Associate(head, Class(lt, x, a[1..]), Class(lt, x, b));
    }
  }

  lemma {:induction false} ClassNone<T>(lt: (T, T) -> bool, x: T, s: seq<T>)
    requires forall i :: 0 <= i < |s| ==> !Equivalent(lt, x, s[i])
    ensures Class(lt, x, s) == []
  {
    if s != [] {
      ClassNone(lt, x, s[1..]);
    }
  }

  lemma SameClassesConcat<T(!new)>(lt: (T, T) -> bool, a: seq<T>, a': seq<T>, b: seq<T>, b': seq<T>)
    requires SameClasses(lt, a, a') && SameClasses(lt, b, b')
    ensures SameClasses(lt, a + b, a' + b')
  {
    forall x ensures Class(lt, x, a + b) == Class(lt, x, a' + b') {
      ClassConcat(lt, x, a, b);
      ClassConcat(lt, x, a', b');
    }
  }

  lemma RearrangedConcat<T(!new)>(lt: (T, T) -> bool, good: bool, a: seq<T>, a': seq<T>, b: seq<T>, b': seq<T>)
    requires Rearranged(lt, good, a, a') && Rearranged(lt, good, b, b')
    ensures Rearranged(lt, good, a + b, a' + b')
  {
    if good {
      SameClassesConcat(lt, a, a', b, b');
    }
  }

  lemma RearrangedTransitive<T(!new)>(lt: (T, T) -> bool, good: bool, a: seq<T>, b: seq<T>, c: seq<T>)
    requires Rearranged(lt, good, a, b) && Rearranged(lt, good, b, c)
    ensures Rearranged(lt, good, a, c)
  {
    if good {
      forall x ensures Class(lt, x, a) == Class(lt, x, c) {
        assert Class(lt, x, a) == Class(lt, x, b);
      }
    }
  }

  lemma RearrangedWhole<T(!new)>(lt: (T, T) -> bool, good: bool, s: seq<T>, t: seq<T>, lo: int, hi: int)
    requires RearrangedWithin(lt, good, s, t, lo, hi)
    ensures Rearranged(lt, good, s, t)
  {
    assert s == s[..lo] + s[lo..hi] + s[hi..];
    assert t == t[..lo] + t[lo..hi] + t[hi..];
    RearrangedConcat(lt, good, s[..lo], t[..lo], s[lo..hi], t[lo..hi]);
    RearrangedConcat(lt, good, s[..lo] + s[lo..hi], t[..lo] + t[lo..hi], s[hi..], t[hi..]);
  }

  lemma SortedPart<T>(lt: (T, T) -> bool, s: seq<T>, a: int, b: int)
    requires Sorted(lt, s) && 0 <= a <= b <= |s|
    ensures Sorted(lt, s[a..b])
  {
  }

  lemma SelfRearranged<T(!new)>(lt: (T, T) -> bool, good: bool, s: seq<T>, lo: int, hi: int)
    requires 0 <= lo <= hi <= |s|
    ensures RearrangedWithin(lt, good, s, s, lo, hi)
  {
  }

  lemma SelfSorted<T(!new)>(lt: (T, T) -> bool, good: bool, s: seq<T>, lo: int, hi: int)
    requires 0 <= lo <= hi <= |s| && (good ==> Sorted(lt, s[lo..hi]))
    ensures SortedWithin(lt, good, s, s, lo, hi)
  {
    hide Sorted;
  }

  lemma SliceOfSlice<T>(s: seq<T>, lo: int, a: int, b: int, hi: int)
    requires 0 <= lo <= a <= b <= hi <= |s|
    ensures s[lo..hi] == s[lo..a] + s[a..b] + s[b..hi]
    ensures s[lo..hi][..a - lo] == s[lo..a]
    ensures s[lo..hi][a - lo..b - lo] == s[a..b]
    ensures s[lo..hi][b - lo..] == s[b..hi]
  {
  }

  /** Rearranging a part of the part that may be rearranged. */
  lemma SameAround<T>(s: seq<T>, t: seq<T>, lo: int, a: int, b: int, hi: int)
    requires 0 <= lo <= a <= b <= hi <= |s| == |t| && s[..a] == t[..a] && s[b..] == t[b..]
    ensures s[..lo] == t[..lo] && s[hi..] == t[hi..] && s[lo..a] == t[lo..a] && s[b..hi] == t[b..hi]
  {
    assert s[..lo] == s[..a][..lo] && t[..lo] == t[..a][..lo];
    assert s[lo..a] == s[..a][lo..] && t[lo..a] == t[..a][lo..];
    assert s[hi..] == s[b..][hi - b..] && t[hi..] == t[b..][hi - b..];
    assert s[b..hi] == s[b..][..hi - b] && t[b..hi] == t[b..][..hi - b];
  }

  lemma RearrangedInside<T(!new)>(lt: (T, T) -> bool, good: bool, r: seq<T>, s: seq<T>, t: seq<T>,
                                  lo: int, a: int, b: int, hi: int)
    requires RearrangedWithin(lt, good, r, s, lo, hi) && lo <= a <= b <= hi
    requires RearrangedWithin(lt, good, s, t, a, b)
    ensures RearrangedWithin(lt, good, r, t, lo, hi)
  {
    SameAround(s, t, lo, a, b, hi);
    RearrangedParts(lt, good, s, t, lo, a, b, hi);
    RearrangedTransitive(lt, good, r[lo..hi], s[lo..hi], t[lo..hi]);
  }

  lemma RearrangedParts<T(!new)>(lt: (T, T) -> bool, good: bool, s: seq<T>, t: seq<T>, lo: int, a: int, b: int, hi: int)
    requires 0 <= lo <= a <= b <= hi <= |s| == |t|
    requires s[lo..a] == t[lo..a] && s[b..hi] == t[b..hi] && Rearranged(lt, good, s[a..b], t[a..b])
    ensures Rearranged(lt, good, s[lo..hi], t[lo..hi])
  {
    SliceOfSlice(s, lo, a, b, hi);
    SliceOfSlice(t, lo, a, b, hi);
    RearrangedConcat(lt, good, s[lo..a], t[lo..a], s[a..b], t[a..b]);
    RearrangedConcat(lt, good, s[lo..a] + s[a..b], t[lo..a] + t[a..b], s[b..hi], t[b..hi]);
  }

  /** Two neighbouring blocks may change places when everything in the second comes before
      everything in the first. */
  lemma ClassSwap<T(!new)>(lt: (T, T) -> bool, u: seq<T>, v: seq<T>)
    requires WeakOrder(lt)
    requires forall i, j :: 0 <= i < |u| && 0 <= j < |v| ==> lt(v[j], u[i])
    ensures SameClasses(lt, u + v, v + u)
  {
    forall x ensures Class(lt, x, u + v) == Class(lt, x, v + u) {
      ClassConcat(lt, x, u, v);
      ClassConcat(lt, x, v, u);
      if i :| 0 <= i < |u| && Equivalent(lt, x, u[i]) {
        forall j | 0 <= j < |v| ensures !Equivalent(lt, x, v[j]) {
          Cotransitive(lt, v[j], x, u[i]);
        }
        ClassNone(lt, x, v);
      } else {
        ClassNone(lt, x, u);
      }
    }
  }

  // ----- Merging -----

  /** The stable merge: the head of b goes first only when it comes strictly before the head of a. */
  ghost function Merge<T>(lt: (T, T) -> bool, a: seq<T>, b: seq<T>): (r: seq<T>)
    decreases |a| + |b|
  {
    if a == [] then b
    else if b == [] then a
    else if lt(b[0], a[0]) then [b[0]] + Merge(lt, a, b[1..])
    else [a[0]] + Merge(lt, a[1..], b)
  }

  lemma {:induction false} MergePerm<T>(lt: (T, T) -> bool, a: seq<T>, b: seq<T>)
    ensures multiset(Merge(lt, a, b)) == multiset(a) + multiset(b)
    ensures |Merge(lt, a, b)| == |a| + |b|
    decreases |a| + |b|
  {
    if a != [] && b != [] {
      assert a == [a[0]] + a[1..] && b == [b[0]] + b[1..];
      if lt(b[0], a[0]) {
        MergePerm(lt, a, b[1..]);
      } else {
        MergePerm(lt, a[1..], b);
      }
    }
  }

  lemma {:induction false} MergeSorted<T(!new)>(lt: (T, T) -> bool, a: seq<T>, b: seq<T>)
    requires WeakOrder(lt) && Sorted(lt, a) && Sorted(lt, b)
    ensures Sorted(lt, Merge(lt, a, b))
    decreases |a| + |b|
  {
    if a != [] && b != [] {
      if lt(b[0], a[0]) {
        MergeSorted(lt, a, b[1..]);
        forall y | y in a + b[1..] ensures !lt(y, b[0]) {
          if y in a && lt(y, b[0]) {
            Cotransitive(lt, y, a[0], b[0]);
          }
        }
        SortedCons(lt, b[0], a, b[1..], Merge(lt, a, b[1..]));
      } else {
        MergeSorted(lt, a[1..], b);
        forall y | y in a[1..] + b ensures !lt(y, a[0]) {
          if y in b && lt(y, a[0]) {
            Cotransitive(lt, y, b[0], a[0]);
          }
        }
        SortedCons(lt, a[0], a[1..], b, Merge(lt, a[1..], b));
      }
    }
  }

  lemma SortedCons<T>(lt: (T, T) -> bool, x: T, a: seq<T>, b: seq<T>, m: seq<T>)
    requires m == Merge(lt, a, b) && Sorted(lt, m)
    requires forall y :: y in a + b ==> !lt(y, x)
    ensures Sorted(lt, [x] + m)
  {
    MergePerm(lt, a, b);
    forall j | 0 <= j < |m| ensures !lt(m[j], x) {
      assert m[j] in multiset(m);
      assert m[j] in a + b;
    }
  }

  /** Merging is stable: every class keeps the order of a followed by b. */
  lemma {:induction false} MergeStable<T(!new)>(lt: (T, T) -> bool, x: T, a: seq<T>, b: seq<T>)
    requires WeakOrder(lt) && Sorted(lt, a)
    ensures Class(lt, x, Merge(lt, a, b)) == Class(lt, x, a) + Class(lt, x, b)
    decreases |a| + |b|
  {
    if a != [] && b != [] {
      if lt(b[0], a[0]) {
        MergeStable(lt, x, a, b[1..]);
        ClassConcat(lt, x, [b[0]], Merge(lt, a, b[1..]));
        ClassConcat(lt, x, [b[0]], b[1..]);
        assert b == [b[0]] + b[1..];
        if Equivalent(lt, x, b[0]) {
          forall i | 0 <= i < |a| ensures !Equivalent(lt, x, a[i]) {
            Cotransitive(lt, b[0], a[i], a[0]);
            Cotransitive(lt, b[0], x, a[i]);
          }
          ClassNone(lt, x, a);
        }
      } else {
        MergeStable(lt, x, a[1..], b);
        ClassConcat(lt, x, [a[0]], Merge(lt, a[1..], b));
        ClassConcat(lt, x, [a[0]], a[1..]);
        assert a == [a[0]] + a[1..];
      }
    }
  }

  lemma MergeSorts<T(!new)>(lt: (T, T) -> bool, a: seq<T>, b: seq<T>)
    requires WeakOrder(lt) && Sorted(lt, a) && Sorted(lt, b)
    ensures SortOf(lt, true, a + b, Merge(lt, a, b))
  {
    MergePerm(lt, a, b);
    MergeSorted(lt, a, b);
    forall x ensures Class(lt, x, a + b) == Class(lt, x, Merge(lt, a, b)) {
      MergeStable(lt, x, a, b);
      ClassConcat(lt, x, a, b);
    }
  }

  // ----- A stable sort has only one possible answer -----

  lemma {:induction false} ClassHead<T>(lt: (T, T) -> bool, s: seq<T>, y: T)
    requires y in s && Equivalent(lt, y, y)
    ensures y in Class(lt, y, s)
  {
    if s[0] != y {
      ClassHead(lt, s[1..], y);
    }
  }

  lemma {:induction false} ClassMember<T>(lt: (T, T) -> bool, x: T, s: seq<T>)
    ensures forall y :: y in Class(lt, x, s) ==> y in s && Equivalent(lt, x, y)
  {
    if s != [] {
      ClassMember(lt, x, s[1..]);
    }
  }

  /** Sorted, and every class in the given order: no two different sequences are both. */
  lemma {:induction false} StableSortUnique<T(!new)>(lt: (T, T) -> bool, s: seq<T>, t: seq<T>)
    requires WeakOrder(lt) && Sorted(lt, s) && Sorted(lt, t) && SameClasses(lt, s, t)
    ensures s == t
  {
    if s != [] && t != [] {
      var x, y := s[0], t[0];
      ClassHead(lt, s, x);
      ClassHead(lt, t, y);
      assert Class(lt, x, s) == Class(lt, x, t) && Class(lt, y, s) == Class(lt, y, t);
      ClassMember(lt, x, t);
      ClassMember(lt, y, s);
      assert !lt(y, x) && !lt(x, y);
      assert Class(lt, x, s)[0] == x && Class(lt, x, t)[0] == y;
      forall z ensures Class(lt, z, s[1..]) == Class(lt, z, t[1..]) {
        var first := if Equivalent(lt, z, x) then [x] else [];
        assert Class(lt, z, s) == first + Class(lt, z, s[1..]);
        assert Class(lt, z, t) == first + Class(lt, z, t[1..]);
        assert Class(lt, z, s)[|first|..] == Class(lt, z, t)[|first|..];
      }
      StableSortUnique(lt, s[1..], t[1..]);
    } else if s != [] {
      ClassHead(lt, s, s[0]);
    } else if t != [] {
      ClassHead(lt, t, t[0]);
    }
  }
}
