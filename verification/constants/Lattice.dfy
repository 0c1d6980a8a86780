/** The flat lattice of constant propagation: a slot not reached yet, a known constant, or any value. */
module Lattice {
  import opened Values

  datatype AV = Top | Lit(v: Val) | Bot

  function Meet(a: AV, b: AV): AV {
    if a.Top? then b else if b.Top? then a else if a == b then a else Bot
  }

  /** The value may be in a slot of which this is known. */
  predicate Describes(a: AV, v: Val) {
    a.Bot? || (a.Lit? && a.v == v)
  }

  /** What a says holds of all values that b describes. */
  predicate Below(a: AV, b: AV) {
    a.Bot? || b.Top? || a == b
  }

  type Env = seq<AV>

  predicate DescribesAll(env: Env, vals: seq<Val>) {
    |env| == |vals| && forall i :: 0 <= i < |env| ==> Describes(env[i], vals[i])
  }

  predicate BelowAll(a: Env, b: Env) {
    |a| == |b| && forall i :: 0 <= i < |a| ==> Below(a[i], b[i])
  }

  function MeetAll(a: Env, b: Env): (r: Env)
    requires |a| == |b|
    ensures |r| == |a| && forall i :: 0 <= i < |r| ==> r[i] == Meet(a[i], b[i])
  {
    seq(|a|, i requires 0 <= i < |a| => Meet(a[i], b[i]))
  }

  lemma BelowAllDescribes(a: Env, b: Env, vals: seq<Val>)
    requires BelowAll(a, b) && DescribesAll(b, vals)
    ensures DescribesAll(a, vals)
  {
  }

  lemma BelowAllOn(a: Env, b: Env, c: Env)
    requires BelowAll(a, b) && BelowAll(b, c)
    ensures BelowAll(a, c)
  {
  }

  /** Every slot is reached. */
  predicate Whole(env: Env) {
    forall i :: 0 <= i < |env| ==> !env[i].Top?
  }

  /** How many slots are known, and so can still fall. */
  function Lits(env: Env): (n: nat)
    ensures n <= |env|
  {
    if env == [] then 0 else (if env[0].Lit? then 1 else 0) + Lits(env[1..])
  }

  lemma WholeSplits(a: Env)
    requires a != []
    ensures Whole(a) <==> !a[0].Top? && Whole(a[1..])
  {
    if !a[0].Top? && Whole(a[1..]) {
      forall i | 0 <= i < |a| ensures !a[i].Top? {
        assert i > 0 ==> a[i] == a[1..][i - 1];
      }
    }
  }

  lemma MeetSplits(a: Env, b: Env)
    requires |a| == |b| && a != []
    ensures MeetAll(a, b) == [Meet(a[0], b[0])] + MeetAll(a[1..], b[1..])
  {
  }

  /** Where slots are reached, a meet that changes something loses a constant. */
  lemma {:induction false} MeetLoses(a: Env, b: Env)
    requires |a| == |b| && Whole(b)
    ensures Whole(MeetAll(a, b))
    ensures Whole(a) ==> Lits(MeetAll(a, b)) <= Lits(a) && (MeetAll(a, b) != a ==> Lits(MeetAll(a, b)) < Lits(a))
  {
    if a == [] {
      assert MeetAll(a, b) == a;
    } else {
      hide Whole, MeetAll, Lits;
      var m, t := MeetAll(a, b), MeetAll(a[1..], b[1..]);
      MeetSplits(a, b);
      WholeSplits(a);
      WholeSplits(b);
      WholeJoins(Meet(a[0], b[0]), t);
      LitsSplit(a);
      LitsJoin(Meet(a[0], b[0]), t);
      MeetLoses(a[1..], b[1..]);
    }
  }

  lemma WholeJoins(v: AV, t: Env)
    ensures Whole([v] + t) <==> !v.Top? && Whole(t)
  {
    assert ([v] + t)[1..] == t;
    WholeSplits([v] + t);
  }

  lemma LitsSplit(a: Env)
    requires a != []
    ensures Lits(a) == (if a[0].Lit? then 1 else 0) + Lits(a[1..]) && a == [a[0]] + a[1..]
  {
  }

  lemma LitsJoin(v: AV, t: Env)
    ensures Lits([v] + t) == (if v.Lit? then 1 else 0) + Lits(t)
  {
    assert ([v] + t)[1..] == t;
  }
}
