/** Array.prototype.sort: the undefined values are set aside, the others are sorted in a work
    array, and only then is anything written back. */
module ArraySort {
  import opened StableOrder
  import opened Comparators
  import opened Gallop
  import TimSort

  datatype Item<+T> = Undefined | Defined(value: T)

  ghost function Values<T>(s: seq<Item<T>>): (r: seq<T>)
    ensures |r| <= |s|
  {
    if s == [] then []
    else if s[|s| - 1].Defined? then Values(s[..|s| - 1]) + [s[|s| - 1].value]
    else Values(s[..|s| - 1])
  }

  ghost function Padded<T>(values: seq<T>, length: nat): (r: seq<Item<T>>)
    requires |values| <= length
    ensures |r| == length
    ensures forall i :: 0 <= i < length ==> r[i] == if i < |values| then Defined(values[i]) else Undefined
  {
    seq(|values|, i requires 0 <= i < |values| => Defined(values[i])) + seq(length - |values|, _ => Undefined)
  }

  /** The outcome the standard asks for: the defined values sorted in front, undefined behind. */
  ghost predicate SortedItems<T(!new)>(lt: (T, T) -> bool, good: bool, was: seq<Item<T>>, now: seq<Item<T>>) {
    exists t: seq<T> :: |t| <= |was| && SortOf(lt, good, Values(was), t) && now == Padded(t, |was|)
  }

  method Collect<T>(a: array<Item<T>>) returns (work: seq<T>)
    ensures work == Values(a[..])
  {
    work := [];
    for i := 0 to a.Length
      invariant work == Values(a[..i])
    {
      assert a[..i + 1][..i] == a[..i];
      if a[i].Defined? {
        work := work + [a[i].value];
      }
    }
    assert a[..a.Length] == a[..];
  }

  method WriteBack<T>(a: array<Item<T>>, work: seq<T>)
    requires |work| <= a.Length
    modifies a
    ensures a[..] == Padded(work, a.Length)
  {
    for i := 0 to a.Length
      invariant forall k :: 0 <= k < i ==> a[k] == if k < |work| then Defined(work[k]) else Undefined
    {
      a[i] := if i < |work| then Defined(work[i]) else Undefined;
    }
  }

  /** A thrown exception leaves the array as it was. Otherwise the undefined values come last and
      the others are permuted; if the comparator answers as a consistent comparator of ECMA-262
      does, they are sorted and stable. */
  method Sort<T(!new)>(a: array<Item<T>>, cmp: Comparator<T>, ghost v: (T, T) -> int)
    returns (r: Outcome<()>)
    requires a.Length <= ISIZE_MAX
    modifies a, cmp
    ensures r.Thrown? ==> cmp.Threw() && a[..] == old(a[..])
    ensures r.Ok? ==> SortedItems(Below(v), Consistent(v) && cmp.Follows(Below(v)), old(a[..]), a[..])
  {
    hide WeakOrder, Consistent, SortOf;
    var work := Collect(a);
    var w := new T[|work|](i requires 0 <= i < |work| => work[i]);
    assert w[..] == work;
    ghost var peak;
    r, peak := TimSort.TimSort(w, cmp, Below(v));
    if r.Ok? {
      OrdersWhenConsistent(cmp, v);
      SortOfWeaker(Below(v), cmp.Orders(Below(v)), Consistent(v) && cmp.Follows(Below(v)), work, w[..]);
      WriteBack(a, w[..]);
    }
  }

  lemma OrdersWhenConsistent<T(!new)>(cmp: Comparator<T>, v: (T, T) -> int)
    ensures Consistent(v) && cmp.Follows(Below(v)) ==> cmp.Orders(Below(v))
  {
    hide WeakOrder, Consistent;
    ConsistentIffWeakOrder(v);
  }

  lemma SortOfWeaker<T(!new)>(lt: (T, T) -> bool, good: bool, less: bool, s: seq<T>, t: seq<T>)
    requires SortOf(lt, good, s, t) && (less ==> good)
    ensures SortOf(lt, less, s, t) && |s| == |t|
  {
    assert |multiset(s)| == |multiset(t)|;
  }

  /** So the outcome for a consistent comparator is one and only one. */
  lemma SortedItemsUnique<T(!new)>(v: (T, T) -> int, was: seq<Item<T>>, now: seq<Item<T>>, now': seq<Item<T>>)
    requires Consistent(v)
    requires SortedItems(Below(v), true, was, now) && SortedItems(Below(v), true, was, now')
    ensures now == now'
  {
    hide Sorted, SameClasses;
    var lt := Below(v);
    var t :| |t| <= |was| && SortOf(lt, true, Values(was), t) && now == Padded(t, |was|);
    var t' :| |t'| <= |was| && SortOf(lt, true, Values(was), t') && now' == Padded(t', |was|);
    ConsistentIffWeakOrder(v);
    SameClassesMeet(lt, Values(was), t, t');
    StableSortUnique(lt, t, t');
  }

  lemma SameClassesMeet<T(!new)>(lt: (T, T) -> bool, s: seq<T>, t: seq<T>, t': seq<T>)
    requires SameClasses(lt, s, t) && SameClasses(lt, s, t')
    ensures SameClasses(lt, t, t')
  {
    forall x ensures Class(lt, x, t) == Class(lt, x, t') {
      assert Class(lt, x, s) == Class(lt, x, t);
    }
  }
}
