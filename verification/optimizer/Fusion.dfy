/** Call fusion: an apply whose argument array, and the list inside it, were built just before
    becomes a call on the registers themselves, and the two arrays are not built. */
module Fusion {
  import opened Basics
  import opened Bytecode
  import opened Machine

  /** The inner array at i1, the outer array at i2, the apply at i3. */
  datatype Site = Site(i1: nat, i2: nat, i3: nat)

  /** target[t]: some jump, block address or the entry leads to op t. */
  ghost predicate MarksTargets(ops: seq<Op>, pcs: seq<(nat, nat)>, entry: nat, target: seq<bool>) {
    && |target| == |ops| + 1
    && (forall i, t :: 0 <= i < |ops| && t in ops[i].Targets() && t < |target| ==> target[t])
    && (forall i :: 0 <= i < |pcs| && pcs[i].1 < |target| ==> target[pcs[i].1])
    && (entry < |target| ==> target[entry])
  }

  method MarkTargets(ops: seq<Op>, pcs: seq<(nat, nat)>, entry: nat) returns (target: seq<bool>)
    ensures MarksTargets(ops, pcs, entry, target)
  {
    var n := |ops|;
    var a := new bool[n + 1](_ => false);
    for i := 0 to n
      invariant forall k, t :: 0 <= k < i && t in ops[k].Targets() && t < a.Length ==> a[t]
    {
      if ops[i].Forks() {
        if ops[i].thenArm < a.Length {
          a[ops[i].thenArm] := true;
        }
        if ops[i].elseArm < a.Length {
          a[ops[i].elseArm] := true;
        }
      } else if ops[i].Jumps() && ops[i].to < a.Length {
        a[ops[i].to] := true;
      }
    }
    for i := 0 to |pcs|
      invariant forall k, t :: 0 <= k < n && t in ops[k].Targets() && t < a.Length ==> a[t]
      invariant forall k :: 0 <= k < i && pcs[k].1 < a.Length ==> a[pcs[k].1]
    {
      if pcs[i].1 < a.Length {
        a[pcs[i].1] := true;
      }
    }
    if entry < a.Length {
      a[entry] := true;
    }
    return a[..];
  }

  /** The nearest kept op before `from` that writes `reg`, with nothing in between that control
      could jump to. */
  function DefBefore(ops: seq<Op>, keep: seq<bool>, target: seq<bool>, from: nat, reg: Reg): (r: Option<nat>)
    requires from <= |ops| == |keep| && |target| == |ops| + 1
    ensures r.Some? ==> r.value < from && keep[r.value] && ops[r.value].Def() == Some(reg)
    ensures r.Some? ==> forall j :: r.value < j <= from ==> !target[j]
    ensures r.Some? ==> forall j :: r.value < j < from && keep[j] ==> ops[j].Def() != Some(reg)
  {
    if from == 0 || target[from] then None
    else if keep[from - 1] && ops[from - 1].Def() == Some(reg) then Some(from - 1)
    else DefBefore(ops, keep, target, from - 1, reg)
  }

  method FindDefBefore(ops: seq<Op>, keep: seq<bool>, target: seq<bool>, from: nat, reg: Reg) returns (r: Option<nat>)
    requires from <= |ops| == |keep| && |target| == |ops| + 1
    ensures r == DefBefore(ops, keep, target, from, reg)
  {
    var j: nat := from;
    while j > 0
      invariant j <= from && DefBefore(ops, keep, target, from, reg) == DefBefore(ops, keep, target, j, reg)
    {
      if target[j] {
        return None;
      }
      j := j - 1;
      if !keep[j] {
        continue;
      }
      if ops[j].Def() == Some(reg) {
        return Some(j);
      }
    }
    return None;
  }

  // The registers of a site.

  predicate Shaped(code: Code, s: Site) {
    && s.i1 < s.i2 < s.i3 < |code.ops|
    && code.ops[s.i3].Apply? && code.ops[s.i2].Array? && code.ops[s.i1].Array?
    && code.ops[s.i2].count == 2
    && code.ops[s.i2].a + 2 <= |code.lists| && code.ops[s.i1].a + code.ops[s.i1].count <= |code.lists|
  }

  function Outer(code: Code, s: Site): Reg
    requires Shaped(code, s)
  {
    code.ops[s.i3].arr
  }

  function Inner(code: Code, s: Site): Reg
    requires Shaped(code, s)
  {
    code.lists[code.ops[s.i2].a + 1]
  }

  function Receiver(code: Code, s: Site): Reg
    requires Shaped(code, s)
  {
    code.lists[code.ops[s.i2].a]
  }

  function Elements(code: Code, s: Site): seq<Reg>
    requires Shaped(code, s)
  {
    code.lists[code.ops[s.i1].a..code.ops[s.i1].a + code.ops[s.i1].count]
  }

  /** An op between the arrays and the call leaves both alone. */
  predicate Harmless(code: Code, s: Site, j: nat)
    requires Shaped(code, s) && s.i1 < j < s.i3 && code.ops[j].ListFits(code.lists)
  {
    var ra, rb, def := Outer(code, s), Inner(code, s), code.ops[j].Def();
    && code.ops[j].Uses(code.lists) !! {ra, rb}
    && (def.Some? && def.value < TRACKED ==>
          && def.value != ra && def.value != rb && def.value !in Elements(code, s)
          && (j > s.i2 ==> def.value != Receiver(code, s)))
  }

  /** The checks under which an apply is fused. `after` are the registers live after it or at a
      handler. */
  predicate Fusible(code: Code, target: seq<bool>, after: set<Reg>, s: Site)
    requires |code.keep| == |code.ops| && |target| == |code.ops| + 1
    requires forall k :: 0 <= k < |code.ops| ==> code.ops[k].ListFits(code.lists)
  {
    && Shaped(code, s) && code.keep[s.i3]
    && DefBefore(code.ops, code.keep, target, s.i3, Outer(code, s)) == Some(s.i2)
    && DefBefore(code.ops, code.keep, target, s.i2, Inner(code, s)) == Some(s.i1)
    && var ra, rb, th, call := Outer(code, s), Inner(code, s), Receiver(code, s), code.ops[s.i3];
       && ra < TRACKED && rb < TRACKED && ra != rb && th != ra && th != rb
       && ra != call.f && ra != call.t && rb != call.f && rb != call.t
       && after !! {ra, rb}
       && (forall r :: r in Elements(code, s) ==> r < TRACKED && r != ra && r != rb)
       && th < TRACKED
       && forall j :: s.i1 < j < s.i3 && code.keep[j] && j != s.i2 ==> Harmless(code, s, j)
  }

  function Fused(code: Code, s: Site): Code
    requires Shaped(code, s) && |code.keep| == |code.ops|
  {
    var call := code.ops[s.i3];
    code.(ops := code.ops[s.i3 := ApplyL(call.d, call.f, call.t, Receiver(code, s), code.ops[s.i1].a, code.ops[s.i1].count)],
          keep := code.keep[s.i1 := false][s.i2 := false])
  }
}
