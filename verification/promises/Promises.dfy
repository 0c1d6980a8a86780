/** Promises. Unlike in section 27.2 of ECMA-262 there is no job queue: reactions run at once, inside
    the settling of their promise, and callbacks can re-enter the heap from there. */
module Promises {
  datatype Value = Plain(n: int) | Promised(p: nat)

  /** What a reaction calls. Resolving functions are native; a callback is anything else. */
  datatype Handler = Absent | Settler(p: nat, ok: bool) | Callback(n: nat)

  /** `serial` numbers the reactions in the order in which they are made. */
  datatype Reaction = Reaction(onOk: Handler, onErr: Handler, derived: nat, hasDerived: bool, serial: nat)

  datatype State = Pending | Fulfilled | Rejected

  datatype Record = Record(state: State, value: Value, reactions: seq<Reaction>)

  /** What a callback may do to the heap. Promises it does not know cannot be named; an action on one
      that does not exist does nothing. */
  datatype Action = Make | Then(p: nat, onOk: Handler, onErr: Handler) | Resolve(p: nat, ok: bool, v: Value)

  datatype Outcome = Returns(v: Value) | Throws(v: Value) | Faults

  datatype Script = Script(actions: seq<Action>, outcome: Outcome)

  // ----- Heaps -----

  predicate KnownValue(heap: seq<Record>, v: Value) {
    v.Promised? ==> v.p < |heap|
  }

  predicate KnownHandler(heap: seq<Record>, h: Handler) {
    h.Settler? ==> h.p < |heap|
  }

  predicate KnownReaction(heap: seq<Record>, r: Reaction) {
    KnownHandler(heap, r.onOk) && KnownHandler(heap, r.onErr) && (r.hasDerived ==> r.derived < |heap|)
  }

  /** A settled promise waits for nothing, and a fulfilled one does not hold a promise. */
  predicate ValidRecord(heap: seq<Record>, c: Record) {
    && KnownValue(heap, c.value)
    && (!c.state.Pending? ==> c.reactions == [])
    && (c.state.Fulfilled? ==> !c.value.Promised?)
    && forall i :: 0 <= i < |c.reactions| ==> KnownReaction(heap, c.reactions[i])
  }

  predicate ValidHeap(heap: seq<Record>) {
    forall p :: 0 <= p < |heap| ==> ValidRecord(heap, heap[p])
  }

  function PendingCount(heap: seq<Record>): nat {
    if heap == [] then 0
    else PendingCount(heap[..|heap| - 1]) + (if heap[|heap| - 1].state.Pending? then 1 else 0)
  }

  /** The reactions that wait, in all promises, by their numbers. */
  function Waiting(heap: seq<Record>): multiset<nat> {
    if heap == [] then multiset{} else Waiting(heap[..|heap| - 1]) + Serials(heap[|heap| - 1].reactions)
  }

  function Serials(rs: seq<Reaction>): multiset<nat> {
    if rs == [] then multiset{} else Serials(rs[..|rs| - 1]) + multiset{rs[|rs| - 1].serial}
  }

  /** From one heap to a later one: nothing goes away, and what is settled stays as it is. */
  predicate Later(a: seq<Record>, b: seq<Record>) {
    |a| <= |b| && forall p :: 0 <= p < |a| && !a[p].state.Pending? ==> b[p].state == a[p].state && b[p].value == a[p].value
  }

  lemma {:induction false} PendingUpdate(heap: seq<Record>, p: nat, c: Record)
    requires p < |heap|
    ensures PendingCount(heap[p := c]) + (if heap[p].state.Pending? then 1 else 0) == PendingCount(heap) + (if c.state.Pending? then 1 else 0)
  {
    var n := |heap| - 1;
    if p == n {
      assert heap[p := c][..n] == heap[..n];
    } else {
      PendingUpdate(heap[..n], p, c);
      assert heap[p := c][..n] == heap[..n][p := c];
    }
  }

  lemma {:induction false} WaitingUpdate(heap: seq<Record>, p: nat, c: Record)
    requires p < |heap|
    ensures Waiting(heap[p := c]) + Serials(heap[p].reactions) == Waiting(heap) + Serials(c.reactions)
  {
    hide Serials;
    var n := |heap| - 1;
    var after, last := heap[p := c], Serials(heap[n].reactions);
    if p == n {
      assert after[..n] == heap[..n];
    } else {
      WaitingUpdate(heap[..n], p, c);
      assert after[..n] == heap[..n][p := c];
      SwapLast(Waiting(after[..n]), Serials(heap[p].reactions), Waiting(heap[..n]), Serials(c.reactions), last);
    }
  }

  lemma SwapLast(a: multiset<nat>, b: multiset<nat>, c: multiset<nat>, d: multiset<nat>, e: multiset<nat>)
    requires a + b == c + d
    ensures (a + e) + b == (c + e) + d
  {
    assert (a + e) + b == (a + b) + e;
    assert (c + e) + d == (c + d) + e;
  }

  lemma ValidGrown(heap: seq<Record>, c: Record)
    requires ValidHeap(heap) && c == Record(Pending, Plain(0), [])
    ensures ValidHeap(heap + [c])
  {
    var after := heap + [c];
    forall p | 0 <= p < |after| ensures ValidRecord(after, after[p]) {
      if p < |heap| {
        assert ValidRecord(heap, heap[p]);
        forall i | 0 <= i < |heap[p].reactions| ensures KnownReaction(after, heap[p].reactions[i]) {
          assert KnownReaction(heap, heap[p].reactions[i]);
        }
      }
    }
  }

  lemma ValidUpdated(heap: seq<Record>, p: nat, c: Record)
    requires ValidHeap(heap) && p < |heap| && ValidRecord(heap, c)
    ensures ValidHeap(heap[p := c])
  {
    var after := heap[p := c];
    forall q | 0 <= q < |after| ensures ValidRecord(after, after[q]) {
      assert ValidRecord(heap, after[q]);
      forall i | 0 <= i < |after[q].reactions| ensures KnownReaction(after, after[q].reactions[i]) {
        assert KnownReaction(heap, after[q].reactions[i]);
      }
    }
  }
}
