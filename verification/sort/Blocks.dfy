/** Writing a block of cells. */
module Blocks {

  ghost function Overwritten<T>(s: seq<T>, at: nat, block: seq<T>): seq<T>
    requires at + |block| <= |s|
  {
    s[..at] + block + s[at + |block|..]
  }

  lemma OutsideBlock<T>(s: seq<T>, at: nat, block: seq<T>, a: nat, b: nat)
    requires at + |block| <= |s| && a <= b <= |s| && (b <= at || at + |block| <= a)
    ensures |Overwritten(s, at, block)| == |s| && Overwritten(s, at, block)[a..b] == s[a..b]
  {
  }

  method WriteBlock<T>(w: array<T>, at: nat, block: seq<T>)
    requires at + |block| <= w.Length
    modifies w
    ensures w[..] == Overwritten(old(w[..]), at, block)
  {
    for i := 0 to |block|
      invariant forall k :: 0 <= k < w.Length ==> w[k] == if at <= k < at + i then block[k - at] else old(w[k])
    {
      w[at + i] := block[i];
    }
  }

  /** Copies n cells from src to dst, in the order that is safe when they overlap. */
  method MoveWithin<T>(w: array<T>, src: nat, dst: nat, n: nat)
    requires src + n <= w.Length && dst + n <= w.Length
    modifies w
    ensures w[..] == Overwritten(old(w[..]), dst, old(w[src..src + n]))
  {
    ghost var block := w[src..src + n];
    if src < dst {
      for i := n downto 0
        invariant forall k :: 0 <= k < dst + i || dst + n <= k < w.Length ==> w[k] == old(w[k])
        invariant forall k :: dst + i <= k < dst + n ==> w[k] == block[k - dst]
      {
        w[dst + i] := w[src + i];
      }
    } else {
      for i := 0 to n
        invariant forall k :: 0 <= k < dst || dst + i <= k < w.Length ==> w[k] == old(w[k])
        invariant forall k :: dst <= k < dst + i ==> w[k] == block[k - dst]
      {
        w[dst + i] := w[src + i];
      }
    }
  }
}
