/** The two galloping searches of TimSort: an exponential search from a hint, then a binary
    search between the last two probes. */
module Gallop {
  import opened StableOrder
  import opened Comparators

  /** The largest isize; no slice is longer. */
  const ISIZE_MAX: int := 0x7FFF_FFFF_FFFF_FFFF

  /** `(offset << 1) + 1` on a 64-bit isize: the shift drops the top bit and may go negative. */
  function Widened(offset: int): (r: int)
    requires 0 < offset <= ISIZE_MAX
    ensures r <= 0 || r == 2 * offset + 1
  {
    var r := 2 * offset + 1;
    if r > ISIZE_MAX then r - 0x1_0000_0000_0000_0000 else r
  }

  /** The elements that come before the key form a prefix. */
  ghost predicate LowPrefix<T>(lt: (T, T) -> bool, s: seq<T>, key: T) {
    forall i, j :: 0 <= i < j < |s| && lt(s[j], key) ==> lt(s[i], key)
  }

  /** The elements that the key comes before form a suffix. */
  ghost predicate HighSuffix<T>(lt: (T, T) -> bool, s: seq<T>, key: T) {
    forall i, j :: 0 <= i < j < |s| && lt(key, s[i]) ==> lt(key, s[j])
  }

  lemma SortedSplits<T(!new)>(lt: (T, T) -> bool, s: seq<T>, key: T)
    requires WeakOrder(lt) && Sorted(lt, s)
    ensures LowPrefix(lt, s, key) && HighSuffix(lt, s, key)
  {
    forall i, j | 0 <= i < j < |s| && lt(s[j], key) ensures lt(s[i], key) {
      Cotransitive(lt, s[j], s[i], key);
    }
    forall i, j | 0 <= i < j < |s| && lt(key, s[i]) ensures lt(key, s[j]) {
      Cotransitive(lt, key, s[j], s[i]);
    }
  }

  /** k is the number of elements of s that come before the key. */
  ghost predicate LeftSplit<T>(lt: (T, T) -> bool, s: seq<T>, key: T, k: int) {
    && 0 <= k <= |s|
    && (forall i :: 0 <= i < k ==> lt(s[i], key))
    && (forall i :: k <= i < |s| ==> !lt(s[i], key))
  }

  /** k is the number of elements of s that the key does not come before. */
  ghost predicate RightSplit<T>(lt: (T, T) -> bool, s: seq<T>, key: T, k: int) {
    && 0 <= k <= |s|
    && (forall i :: 0 <= i < k ==> !lt(key, s[i]))
    && (forall i :: k <= i < |s| ==> lt(key, s[i]))
  }

  method GallopLeft<T(!new)>(a: seq<T>, cmp: Comparator<T>, key: T, base: nat, length: nat, hint: nat,
                             ghost lt: (T, T) -> bool)
    returns (r: Outcome<nat>)
    requires hint < length <= ISIZE_MAX && base + length <= |a|
    modifies cmp
    ensures r.Thrown? ==> cmp.Threw()
    ensures r.Ok? ==> r.value <= length
    ensures r.Ok? && cmp.Follows(lt) && LowPrefix(lt, a[base..base + length], key)
            ==> LeftSplit(lt, a[base..base + length], key, r.value)
  {
    ghost var s := a[base..base + length];
    ghost var good := cmp.Follows(lt) && LowPrefix(lt, s, key);
    var last, offset := 0, 1;
    var order :- cmp.Compare(a[base + hint], key);
    if order < 0 {
      var max := length - hint;
      while offset < max
        invariant 0 <= last < offset && last < max
        invariant good ==> lt(s[hint + last], key)
        decreases max - offset
      {
        var o :- cmp.Compare(a[base + hint + offset], key);
        if o >= 0 {
          break;
        }
        last := offset;
        offset := Widened(offset);
        if offset <= 0 {
          offset := max;
        }
      }
      if offset > max {
        offset := max;
      }
      last := last + hint;
      offset := offset + hint;
    } else {
      var max := hint + 1;
      while offset < max
        invariant 0 <= last < offset && last < max
        invariant good ==> !lt(s[hint - last], key)
        decreases max - offset
      {
        var o :- cmp.Compare(a[base + hint - offset], key);
        if o < 0 {
          break;
        }
        last := offset;
        offset := Widened(offset);
        if offset <= 0 {
          offset := max;
        }
      }
      if offset > max {
        offset := max;
      }
      var tmp := last;
      last := hint - offset;
      offset := hint - tmp;
    }
    r := BisectLeft(a, cmp, key, base, length, last + 1, offset, lt);
  }

  /** The binary search that ends a leftward gallop, between the last two probes. */
  method BisectLeft<T(!new)>(a: seq<T>, cmp: Comparator<T>, key: T, base: nat, length: nat, lo: nat, hi: nat,
                             ghost lt: (T, T) -> bool)
    returns (r: Outcome<nat>)
    requires lo <= hi <= length && base + length <= |a|
    modifies cmp
    ensures r.Thrown? ==> cmp.Threw()
    ensures r.Ok? ==> r.value <= length
    ensures var s := a[base..base + length];
            r.Ok? && cmp.Follows(lt) && LowPrefix(lt, s, key) && (lo > 0 ==> lt(s[lo - 1], key)) && (hi < length ==> !lt(s[hi], key))
            ==> LeftSplit(lt, s, key, r.value)
  {
    ghost var s := a[base..base + length];
    ghost var good := cmp.Follows(lt) && LowPrefix(lt, s, key) && (lo > 0 ==> lt(s[lo - 1], key)) && (hi < length ==> !lt(s[hi], key));
    var last, offset := lo, hi;
    while last < offset
      invariant 0 <= last <= offset <= length
      invariant good ==> forall i :: 0 <= i < last ==> lt(s[i], key)
      invariant good ==> forall i :: offset <= i < length ==> !lt(s[i], key)
    {
      var m := last + (offset - last) / 2;
      var o :- cmp.Compare(a[base + m], key);
      if o < 0 {
        last := m + 1;
      } else {
        offset := m;
      }
    }
    return Ok(offset);
  }

  method GallopRight<T(!new)>(a: seq<T>, cmp: Comparator<T>, key: T, base: nat, length: nat, hint: nat,
                              ghost lt: (T, T) -> bool)
    returns (r: Outcome<nat>)
    requires hint < length <= ISIZE_MAX && base + length <= |a|
    modifies cmp
    ensures r.Thrown? ==> cmp.Threw()
    ensures r.Ok? ==> r.value <= length
    ensures r.Ok? && cmp.Follows(lt) && HighSuffix(lt, a[base..base + length], key)
            ==> RightSplit(lt, a[base..base + length], key, r.value)
  {
    ghost var s := a[base..base + length];
    ghost var good := cmp.Follows(lt) && HighSuffix(lt, s, key);
    var last, offset := 0, 1;
    var order :- cmp.Compare(key, a[base + hint]);
    if order < 0 {
      var max := hint + 1;
      while offset < max
        invariant 0 <= last < offset && last < max
        invariant good ==> lt(key, s[hint - last])
        decreases max - offset
      {
        var o :- cmp.Compare(key, a[base + hint - offset]);
        if o >= 0 {
          break;
        }
        last := offset;
        offset := Widened(offset);
        if offset <= 0 {
          offset := max;
        }
      }
      if offset > max {
        offset := max;
      }
      var tmp := last;
      last := hint - offset;
      offset := hint - tmp;
    } else {
      var max := length - hint;
      while offset < max
        invariant 0 <= last < offset && last < max
        invariant good ==> !lt(key, s[hint + last])
        decreases max - offset
      {
        var o :- cmp.Compare(key, a[base + hint + offset]);
        if o < 0 {
          break;
        }
        last := offset;
        offset := Widened(offset);
        if offset <= 0 {
          offset := max;
        }
      }
      if offset > max {
        offset := max;
      }
      last := last + hint;
      offset := offset + hint;
    }
    r := BisectRight(a, cmp, key, base, length, last + 1, offset, lt);
  }

  /** The binary search that ends a rightward gallop, between the last two probes. */
  method BisectRight<T(!new)>(a: seq<T>, cmp: Comparator<T>, key: T, base: nat, length: nat, lo: nat, hi: nat,
                              ghost lt: (T, T) -> bool)
    returns (r: Outcome<nat>)
    requires lo <= hi <= length && base + length <= |a|
    modifies cmp
    ensures r.Thrown? ==> cmp.Threw()
    ensures r.Ok? ==> r.value <= length
    ensures var s := a[base..base + length];
            r.Ok? && cmp.Follows(lt) && HighSuffix(lt, s, key) && (lo > 0 ==> !lt(key, s[lo - 1])) && (hi < length ==> lt(key, s[hi]))
            ==> RightSplit(lt, s, key, r.value)
  {
    ghost var s := a[base..base + length];
    ghost var good := cmp.Follows(lt) && HighSuffix(lt, s, key) && (lo > 0 ==> !lt(key, s[lo - 1])) && (hi < length ==> lt(key, s[hi]));
    var last, offset := lo, hi;
    while last < offset
      invariant 0 <= last <= offset <= length
      invariant good ==> forall i :: 0 <= i < last ==> !lt(key, s[i])
      invariant good ==> forall i :: offset <= i < length ==> lt(key, s[i])
    {
      var m := last + (offset - last) / 2;
      var o :- cmp.Compare(key, a[base + m]);
      if o < 0 {
        offset := m;
      } else {
        last := m + 1;
      }
    }
    return Ok(offset);
  }
}
