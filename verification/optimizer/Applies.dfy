/** The call that an apply makes, on a heap: over the two arrays it is given, or over the registers they
    would have been built from. Both make the same call; that is why the host of the machine sees but one. */
module Applies {
  /** Values as far as an apply looks at them. */
  datatype Value = Undef | Null | GlobalObject | NativeApply | Ref(id: nat) | Other(n: nat)

  datatype Object = List(items: seq<Value>) | Closure(entry: nat, scope: nat, code: nat) | Opaque

  type Heap = seq<Object>

  /** What is called: the code of a closure straight away, or whatever f is with its arguments made out. */
  datatype Call = Runs(closure: Object, f: nat, receiver: Value, args: seq<Value>) | Asks(callee: Value, receiver: Value, args: seq<Value>)

  predicate IsList(h: Heap, v: Value) {
    v.Ref? && v.id < |h| && h[v.id].List?
  }

  predicate IsClosure(h: Heap, v: Value) {
    v.Ref? && v.id < |h| && h[v.id].Closure?
  }

  /** Without a receiver, the global object is. */
  function ReceiverOf(v: Value): Value {
    if v.Undef? || v.Null? then GlobalObject else v
  }

  function CallArgs(h: Heap, f: Value, t: Value, args: seq<Value>): Call {
    if IsClosure(h, f) then Runs(h[f.id], f.id, ReceiverOf(t), args) else Asks(f, t, args)
  }

  /** The apply over an array. The fast path: the native apply, of a closure, on a receiver and a list. */
  function ApplyCall(h: Heap, f: Value, t: Value, a: Value): Call
    requires IsList(h, a)
  {
    var outer := h[a.id].items;
    if f.NativeApply? && IsClosure(h, t) && |outer| >= 2 && IsList(h, outer[1]) then
      Runs(h[t.id], t.id, ReceiverOf(outer[0]), h[outer[1].id].items)
    else CallArgs(h, f, t, outer)
  }

  /** The apply over registers, and the heap it leaves: on the slow path the two arrays are built after all. */
  function ApplyListCall(h: Heap, f: Value, t: Value, th: Value, args: seq<Value>): (Call, Heap) {
    if f.NativeApply? && IsClosure(h, t) then (Runs(h[t.id], t.id, ReceiverOf(th), args), h)
    else
      var built := h + [List(args), List([th, Ref(|h|)])];
      (CallArgs(built, f, t, [th, Ref(|h|)]), built)
  }

  // ----- The same call -----

  /** Equal, or lists of the same items. */
  predicate Alike(h: Heap, v: Value, k: Heap, u: Value) {
    v == u || (IsList(h, v) && IsList(k, u) && h[v.id] == k[u.id])
  }

  predicate AllAlike(h: Heap, vs: seq<Value>, k: Heap, us: seq<Value>) {
    |vs| == |us| && forall i :: 0 <= i < |vs| ==> Alike(h, vs[i], k, us[i])
  }

  predicate SameCall(h: Heap, c: Call, k: Heap, d: Call) {
    match (c, d)
    case (Runs(x, f, t, args), Runs(y, g, u, brgs)) => x == y && f == g && t == u && AllAlike(h, args, k, brgs)
    case (Asks(f, t, args), Asks(g, u, brgs)) => f == g && t == u && AllAlike(h, args, k, brgs)
    case _ => false
  }

  /** The value is not a place that only one of the two heaps has. */
  predicate Settled(h: Heap, v: Value) {
    v.Ref? ==> v.id < |h|
  }

  /** `more` has the two arrays of an apply somewhere behind what the other heap has, too; whatever else was
      built in between, the two applies make the same call. */
  lemma AppliesAgree(h: Heap, more: Heap, f: Value, t: Value, th: Value, args: seq<Value>, inner: nat, outer: nat)
    requires h <= more && |h| <= inner < |more| && |h| <= outer < |more|
    requires more[inner] == List(args) && more[outer] == List([th, Ref(inner)])
    requires Settled(h, f) && Settled(h, t) && Settled(h, th)
    ensures var (call, after) := ApplyListCall(h, f, t, th, args);
            h <= after && SameCall(more, ApplyCall(more, f, t, Ref(outer)), after, call)
  {
    assert forall i :: 0 <= i < |h| ==> h[i] == more[i];
    var (call, after) := ApplyListCall(h, f, t, th, args);
    assert AllAlike(more, args, after, args);
  }
}
