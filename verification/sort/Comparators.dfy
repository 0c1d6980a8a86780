/** Comparators as Array.prototype.sort meets them: calls that may throw, that may answer
    differently each time, and that are only sometimes an order. */
module Comparators {
  import opened StableOrder

  /** What a call leaves behind: a value, or a thrown exception that the caller passes on. */
  datatype Outcome<+R> = Ok(value: R) | Thrown {
    predicate IsFailure() {
      Thrown?
    }

    function PropagateFailure<U>(): Outcome<U>
      requires Thrown?
    {
      Thrown
    }

    function Extract(): R
      requires Ok?
    {
      value
    }
  }

  /** The comparison function given to a sort. `answer(n, x, y)` is what the n-th call says about
      (x, y); only the sign of the number matters, and a NaN has already become 0. */
  class Comparator<T(!new)> {
    const answer: (nat, T, T) -> Outcome<int>
    var calls: nat

    constructor (answer: (nat, T, T) -> Outcome<int>)
      ensures this.answer == answer && calls == 0
    {
      this.answer := answer;
      calls := 0;
    }

    method Compare(x: T, y: T) returns (order: Outcome<int>)
      modifies this
      ensures order == answer(old(calls), x, y) && calls == old(calls) + 1
      ensures order.Thrown? ==> Threw()
    {
      order := answer(calls, x, y);
      calls := calls + 1;
    }

    /** The last call threw. */
    ghost predicate Threw()
      reads this
    {
      exists n: nat, x, y :: n + 1 == calls && answer(n, x, y).Thrown?
    }

    /** Every call that answers says "negative" exactly when lt holds. */
    ghost predicate Follows(lt: (T, T) -> bool) {
      forall n, x, y :: answer(n, x, y).Ok? ==> (answer(n, x, y).value < 0 <==> lt(x, y))
    }

    /** The comparator is one fixed order. */
    ghost predicate Orders(lt: (T, T) -> bool) {
      Follows(lt) && WeakOrder(lt)
    }
  }

  /** A consistent comparator in the words of section 23.1.3.30 of ECMA-262: v(x, y) is the one
      value every call gives; being 0 is an equivalence, being negative and being positive are
      transitive. */
  ghost predicate Consistent<T(!new)>(v: (T, T) -> int) {
    && (forall x :: v(x, x) == 0)
    && (forall x, y :: v(x, y) == 0 ==> v(y, x) == 0)
    && (forall x, y, z {:trigger Chain(x, y, z)} :: Chain(x, y, z) && v(x, y) == 0 && v(y, z) == 0 ==> v(x, z) == 0)
    && (forall x, y, z {:trigger Chain(x, y, z)} :: Chain(x, y, z) && v(x, y) < 0 && v(y, z) < 0 ==> v(x, z) < 0)
    && (forall x, y, z {:trigger Chain(x, y, z)} :: Chain(x, y, z) && v(x, y) > 0 && v(y, z) > 0 ==> v(x, z) > 0)
  }

  ghost function Below<T(!new)>(v: (T, T) -> int): (lt: (T, T) -> bool)
    ensures forall x, y :: lt(x, y) <==> v(x, y) < 0
  {
    (x, y) => v(x, y) < 0
  }

  /** The standard's five conditions say neither that "negative" and "positive" mirror each other
      nor that equal elements compare alike, yet both follow, and nothing else does. */
  lemma ConsistentIffWeakOrder<T(!new)>(v: (T, T) -> int)
    ensures Consistent(v) <==> WeakOrder(Below(v)) && forall x, y :: v(x, y) > 0 <==> v(y, x) < 0
  {
    if Consistent(v) {
      forall x, y ensures v(x, y) > 0 <==> v(y, x) < 0 {
        assert Chain(x, y, x) && Chain(y, x, y);
      }
      forall x, y, z | v(x, z) < 0 ensures v(x, y) < 0 || v(y, z) < 0 {
        assert Chain(z, y, x) && Chain(x, z, y) && Chain(z, x, y) && Chain(y, x, z);
      }
    } else if WeakOrder(Below(v)) && forall x, y :: v(x, y) > 0 <==> v(y, x) < 0 {
      var lt := Below(v);
      forall x, y, z ensures v(x, y) == 0 && v(y, z) == 0 ==> v(x, z) == 0 {
        assert Chain(x, y, z) && Chain(z, y, x);
        assert lt(x, z) ==> lt(x, y) || lt(y, z);
        assert lt(z, x) ==> lt(z, y) || lt(y, x);
      }
      forall x, y, z ensures v(x, y) < 0 && v(y, z) < 0 ==> v(x, z) < 0 {
        assert Chain(x, z, y);
        assert lt(x, y) ==> lt(x, z) || lt(z, y);
      }
      forall x, y, z ensures v(x, y) > 0 && v(y, z) > 0 ==> v(x, z) > 0 {
        assert Chain(y, z, x) && lt(y, x) == (v(x, y) > 0);
        assert lt(y, x) ==> lt(y, z) || lt(z, x);
      }
      forall x ensures v(x, x) == 0 {
        assert v(x, x) > 0 <==> v(x, x) < 0;
      }
      assert Consistent(v);
    }
  }
}
