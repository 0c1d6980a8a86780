/** The layout of the probes: every batch first shuffles all cells by one permutation and then puts
    its probes into their slots. If it succeeds, the cells and the probes correspond one to one, provided
    that batches and probes can be told apart by sixteen bits. */
module Layouts {
  import opened Basics

  /** A cell still has its first contents, or those of a probe, or is left over for the metadata. */
  datatype Cell = Init(i: nat) | Probe(batch: nat, probe: nat) | Metadata

  // ----- The permutation -----

  /** What the shuffle returns for each place: a whole number, or something else. */
  datatype Item = Whole(n: nat) | NotWhole

  /** Distinct numbers below the length, as many as that. */
  predicate IsPermutation(perm: seq<nat>) {
    Distinct(perm) && forall i :: 0 <= i < |perm| ==> perm[i] < |perm|
  }

  predicate Spells(items: seq<Item>, perm: seq<nat>) {
    |items| == |perm| && forall i :: 0 <= i < |items| ==> items[i] == Whole(perm[i])
  }

  /** Reads the permutation off the shuffled identity, or finds that it is none. */
  method ReadPermutation(items: seq<Item>, len: nat) returns (r: Option<seq<nat>>)
    ensures match r
            case Some(perm) => |perm| == len && Spells(items, perm) && IsPermutation(perm)
            case None => forall perm :: |perm| == len && Spells(items, perm) ==> !IsPermutation(perm)
  {
    if |items| != len {
      return None;
    }
    var seen := new bool[len](_ => false);
    var perm: seq<nat> := [];
    for k := 0 to len
      invariant |perm| == k && Spells(items[..k], perm) && Distinct(perm)
      invariant forall i :: 0 <= i < k ==> perm[i] < len
      invariant forall v :: 0 <= v < len ==> (seen[v] <==> v in perm)
    {
      if items[k].NotWhole? || items[k].n >= len || seen[items[k].n] {
        NoPermutation(items, len, perm, k);
        return None;
      }
      seen[items[k].n] := true;
      assert items[..k + 1] == items[..k] + [items[k]];
      perm := perm + [items[k].n];
    }
    assert items[..len] == items;
    r := Some(perm);
  }

  lemma NoPermutation(items: seq<Item>, len: nat, perm: seq<nat>, k: nat)
    requires |items| == len && k < len && |perm| == k && Spells(items[..k], perm)
    requires items[k].NotWhole? || items[k].n >= len || items[k].n in perm
    ensures forall p :: |p| == len && Spells(items, p) ==> !IsPermutation(p)
  {
    forall p | |p| == len && Spells(items, p) ensures !IsPermutation(p) {
      assert forall i :: 0 <= i < k ==> items[i] == items[..k][i];
      if items[k].Whole? && items[k].n in perm {
        var i :| 0 <= i < k && perm[i] == items[k].n;
        assert p[i] == p[k];
      }
    }
  }

  // ----- Pigeonholes -----

  /** As many distinct numbers as there are below n are all of them. */
  lemma AllPlaced(s: seq<nat>, n: nat, v: nat)
    requires Distinct(s) && |s| == n && (forall i :: 0 <= i < |s| ==> s[i] < n) && v < n
    ensures v in s
  {
    if v !in s {
      DistinctBound(s + [v], n);
    }
  }

  // ----- Probes by number -----

  function Total(sizes: seq<nat>): nat {
    if sizes == [] then 0 else Total(sizes[..|sizes| - 1]) + sizes[|sizes| - 1]
  }

  /** Probes are numbered through, batch after batch. */
  function NumberOf(sizes: seq<nat>, b: nat, p: nat): nat
    requires b < |sizes|
  {
    Total(sizes[..b]) + p
  }

  lemma {:induction false} TotalRises(sizes: seq<nat>, a: nat, b: nat)
    requires a <= b <= |sizes|
    ensures Total(sizes[..a]) <= Total(sizes[..b])
  {
    if a < b {
      TotalRises(sizes, a, b - 1);
      assert sizes[..b][..b - 1] == sizes[..b - 1];
    }
  }

  lemma NumberBounds(sizes: seq<nat>, b: nat, p: nat)
    requires b < |sizes| && p < sizes[b]
    ensures Total(sizes[..b]) <= NumberOf(sizes, b, p) < Total(sizes[..b + 1]) <= Total(sizes)
  {
    assert sizes[..b + 1][..b] == sizes[..b];
    TotalRises(sizes, b + 1, |sizes|);
    assert sizes[..|sizes|] == sizes;
  }

  lemma NumberTells(sizes: seq<nat>, b: nat, p: nat, c: nat, q: nat)
    requires b < |sizes| && p < sizes[b] && c < |sizes| && q < sizes[c] && NumberOf(sizes, b, p) == NumberOf(sizes, c, q)
    ensures b == c && p == q
  {
    NumberBounds(sizes, b, p);
    NumberBounds(sizes, c, q);
    if b < c {
      TotalRises(sizes, b + 1, c);
    } else if c < b {
      TotalRises(sizes, c + 1, b);
    }
  }

  // ----- Placing -----

  function Sizes(batches: seq<seq<nat>>): (r: seq<nat>)
    ensures |r| == |batches| && forall b :: 0 <= b < |r| ==> r[b] == |batches[b]|
  {
    seq(|batches|, b requires 0 <= b < |batches| => |batches[b]|)
  }

  /** Batches and probes are recorded by sixteen bits each. */
  predicate Narrow(batches: seq<seq<nat>>) {
    |batches| <= 0x1_0000 && forall b :: 0 <= b < |batches| ==> |batches[b]| <= 0x1_0000
  }

  function Label(b: nat, p: nat): Cell {
    Probe(b % 0x1_0000, p % 0x1_0000)
  }

  datatype Error = EmptyBatch(b: nat) | Count | Slot(slot: nat) | Survivors(n: nat)

  /** The cells in the end, and for each probe the cell it is in; or an index out of range. */
  datatype Result = Fails(e: Error) | Panics | Laid(cells: seq<Cell>, metadata: nat, cellOf: seq<seq<nat>>)

  function Shuffled(perm: seq<nat>, cells: seq<Cell>): (r: seq<Cell>)
    requires IsPermutation(perm) && |perm| == |cells|
    ensures |r| == |cells| && forall i :: 0 <= i < |r| ==> r[i] == cells[perm[i]]
  {
    seq(|perm|, i requires 0 <= i < |perm| => cells[perm[i]])
  }

  /** The probes of the first b batches, and the first p of the next, are in the cells at most once, and no others are. */
  ghost predicate Placed(batches: seq<seq<nat>>, cells: seq<Cell>, b: nat, p: nat)
    requires b <= |batches|
  {
    && (forall i, j :: 0 <= i < j < |cells| && cells[i].Probe? ==> cells[i] != cells[j])
    && (forall i :: 0 <= i < |cells| ==> !cells[i].Metadata?)
    && forall i :: 0 <= i < |cells| && cells[i].Probe? ==> Due(batches, cells[i], b, p)
  }

  predicate Due(batches: seq<seq<nat>>, c: Cell, b: nat, p: nat)
    requires c.Probe? && b <= |batches|
  {
    (c.batch < b && c.probe < |batches[c.batch]|) || (c.batch == b && c.probe < p)
  }

  lemma ShuffleKeeps(perm: seq<nat>, batches: seq<seq<nat>>, cells: seq<Cell>, b: nat, p: nat)
    requires IsPermutation(perm) && |perm| == |cells| && b <= |batches| && Placed(batches, cells, b, p)
    ensures Placed(batches, Shuffled(perm, cells), b, p)
  {
    var r := Shuffled(perm, cells);
    forall i, j | 0 <= i < j < |r| && r[i].Probe? ensures r[i] != r[j] {
      var x, y := perm[i], perm[j];
      assert x != y;
      if x < y {
        assert cells[x] != cells[y];
      } else if cells[y].Probe? {
        assert cells[y] != cells[x];
      }
    }
  }

  lemma PutKeeps(batches: seq<seq<nat>>, cells: seq<Cell>, b: nat, p: nat, s: nat)
    requires b < |batches| && p < |batches[b]| && s < |cells| && Placed(batches, cells, b, p)
    ensures Placed(batches, cells[s := Probe(b, p)], b, p + 1)
  {
  }

  lemma BatchDone(batches: seq<seq<nat>>, cells: seq<Cell>, b: nat)
    requires b < |batches| && Placed(batches, cells, b, |batches[b]|)
    ensures Placed(batches, cells, b + 1, 0)
  {
  }

  function SurvivorsOf(cells: seq<Cell>, n: nat): (r: seq<nat>)
    requires n <= |cells|
    ensures forall i :: i in r <==> 0 <= i < n && cells[i].Init?
    ensures Distinct(r)
  {
    if n == 0 then []
    else if cells[n - 1].Init? then SurvivorsOf(cells, n - 1) + [n - 1]
    else SurvivorsOf(cells, n - 1)
  }

  lemma OneSurvivor(cells: seq<Cell>)
    requires |SurvivorsOf(cells, |cells|)| == 1
    ensures var m := SurvivorsOf(cells, |cells|)[0];
            m < |cells| && forall j :: 0 <= j < |cells| ==> (cells[j].Init? <==> j == m)
  {
    var r := SurvivorsOf(cells, |cells|);
    assert r[0] in r;
    forall j | 0 <= j < |cells| ensures cells[j].Init? <==> j == r[0] {
      assert cells[j].Init? <==> j in r;
    }
  }

  /** What the cells other than the survivor hold, by number. */
  function Numbers(sizes: seq<nat>, cells: seq<Cell>): (r: seq<nat>)
    requires forall i :: 0 <= i < |cells| ==> cells[i].Probe? && cells[i].batch < |sizes|
    ensures |r| == |cells| && forall i :: 0 <= i < |r| ==> r[i] == NumberOf(sizes, cells[i].batch, cells[i].probe)
  {
    seq(|cells|, i requires 0 <= i < |cells| => NumberOf(sizes, cells[i].batch, cells[i].probe))
  }

  /** All cells but the one survivor are taken by probes, no two by the same, and there are as many cells
      as probes: so every probe is somewhere. */
  lemma EveryProbePlaced(batches: seq<seq<nat>>, cells: seq<Cell>, m: nat, b: nat, p: nat) returns (i: nat)
    requires Placed(batches, cells, |batches|, 0) && Total(Sizes(batches)) + 1 == |cells|
    requires m < |cells| && forall j :: 0 <= j < |cells| ==> (cells[j].Init? <==> j == m)
    requires b < |batches| && p < |batches[b]|
    ensures i < |cells| && i != m && cells[i] == Probe(b, p)
  {
    var sizes := Sizes(batches);
    var taken := cells[..m] + cells[m + 1..];
    TakenCells(batches, cells, m, taken);
    var numbers := Numbers(sizes, taken);
    forall j, k | 0 <= j < k < |numbers| ensures numbers[j] != numbers[k] {
      if numbers[j] == numbers[k] {
        NumberTells(sizes, taken[j].batch, taken[j].probe, taken[k].batch, taken[k].probe);
      }
    }
    forall j | 0 <= j < |numbers| ensures numbers[j] < Total(sizes) {
      NumberBounds(sizes, taken[j].batch, taken[j].probe);
    }
    NumberBounds(sizes, b, p);
    AllPlaced(numbers, Total(sizes), NumberOf(sizes, b, p));
    var k :| 0 <= k < |numbers| && numbers[k] == NumberOf(sizes, b, p);
    NumberTells(sizes, taken[k].batch, taken[k].probe, b, p);
    i := if k < m then k else k + 1;
  }

  lemma TakenCells(batches: seq<seq<nat>>, cells: seq<Cell>, m: nat, taken: seq<Cell>)
    requires Placed(batches, cells, |batches|, 0)
    requires m < |cells| && (forall j :: 0 <= j < |cells| ==> (cells[j].Init? <==> j == m)) && taken == cells[..m] + cells[m + 1..]
    ensures forall j :: 0 <= j < |taken| ==> taken[j].Probe? && Due(batches, taken[j], |batches|, 0)
    ensures forall j, k :: 0 <= j < k < |taken| ==> taken[j] != taken[k]
  {
    forall j | 0 <= j < |taken| ensures taken[j].Probe? && Due(batches, taken[j], |batches|, 0) {
      assert taken[j] == cells[if j < m then j else j + 1];
    }
    forall j, k | 0 <= j < k < |taken| ensures taken[j] != taken[k] {
      assert cells[if j < m then j else j + 1] != cells[if k < m then k else k + 1];
    }
  }

  /** The cells in the end: one for the metadata, and every other for a probe that there is, each probe
      in exactly one. */
  ghost predicate OneToOne(batches: seq<seq<nat>>, cells: seq<Cell>, metadata: nat) {
    && metadata < |cells|
    && (forall i :: 0 <= i < |cells| ==> CellFits(batches, cells, metadata, i))
    && (forall b, p :: 0 <= b < |batches| && 0 <= p < |batches[b]| ==> Somewhere(cells, b, p))
    && (forall i, j :: 0 <= i < j < |cells| ==> cells[i] != cells[j])
  }

  predicate CellFits(batches: seq<seq<nat>>, cells: seq<Cell>, metadata: nat, i: nat)
    requires i < |cells|
  {
    if i == metadata then cells[i].Metadata?
    else cells[i].Probe? && cells[i].batch < |batches| && cells[i].probe < |batches[cells[i].batch]|
  }

  ghost predicate Somewhere(cells: seq<Cell>, b: nat, p: nat) {
    exists i :: 0 <= i < |cells| && cells[i] == Probe(b, p)
  }

  lemma LaidOneToOne(batches: seq<seq<nat>>, cells: seq<Cell>, m: nat)
    requires Placed(batches, cells, |batches|, 0) && Total(Sizes(batches)) + 1 == |cells|
    requires m < |cells| && forall j :: 0 <= j < |cells| ==> (cells[j].Init? <==> j == m)
    ensures OneToOne(batches, cells[m := Metadata], m)
  {
    var done := cells[m := Metadata];
    forall i | 0 <= i < |done| ensures CellFits(batches, done, m, i) {
      if i != m {
        assert Due(batches, cells[i], |batches|, 0);
      }
    }
    forall b, p | 0 <= b < |batches| && 0 <= p < |batches[b]| ensures Somewhere(done, b, p) {
      var i := EveryProbePlaced(batches, cells, m, b, p);
      assert done[i] == Probe(b, p);
    }
  }

  /** For each probe the cell it is in, counted behind the prefix. */
  ghost predicate PointsBack(batches: seq<seq<nat>>, cells: seq<Cell>, prefix: nat, cellOf: seq<seq<nat>>) {
    && |cellOf| == |batches| && (forall b :: 0 <= b < |batches| ==> |cellOf[b]| == |batches[b]|)
    && forall b, p :: 0 <= b < |batches| && 0 <= p < |batches[b]| ==> PointsAt(cells, prefix, cellOf[b][p], b, p)
  }

  predicate PointsAt(cells: seq<Cell>, prefix: nat, at: nat, b: nat, p: nat) {
    prefix <= at < prefix + |cells| && cells[at - prefix] == Probe(b, p)
  }

  predicate RecordedAt(cells: seq<Cell>, prefix: nat, cellOf: seq<seq<nat>>, k: nat)
    requires k < |cells| && cells[k].Probe?
  {
    InRange(cellOf, cells[k]) && cellOf[cells[k].batch][cells[k].probe] == prefix + k
  }

  predicate InRange<T>(rows: seq<seq<T>>, c: Cell)
    requires c.Probe?
  {
    c.batch < |rows| && c.probe < |rows[c.batch]|
  }

  ghost predicate Apart(cells: seq<Cell>) {
    forall i, j :: 0 <= i < j < |cells| ==> cells[i] != cells[j]
  }

  /** Notes for each label the last cell that holds it, or finds a label that no probe has. */
  method RecordCells(batches: seq<seq<nat>>, cells: seq<Cell>, prefix: nat) returns (r: Option<seq<seq<nat>>>)
    ensures match r
            case None => exists k :: 0 <= k < |cells| && cells[k].Probe? && !InRange(batches, cells[k])
            case Some(cellOf) =>
              && |cellOf| == |batches| && (forall b :: 0 <= b < |batches| ==> |cellOf[b]| == |batches[b]|)
              && (forall k :: 0 <= k < |cells| && cells[k].Probe? ==> InRange(batches, cells[k]))
              && (Apart(cells) ==> forall k :: 0 <= k < |cells| && cells[k].Probe? ==> RecordedAt(cells, prefix, cellOf, k))
  {
    var cellOf: seq<seq<nat>> := seq(|batches|, b requires 0 <= b < |batches| => seq(|batches[b]|, _ => 0));
    for i := 0 to |cells|
      invariant |cellOf| == |batches| && forall b :: 0 <= b < |batches| ==> |cellOf[b]| == |batches[b]|
      invariant forall k :: 0 <= k < i && cells[k].Probe? ==> InRange(batches, cells[k])
      invariant Apart(cells) ==> forall k :: 0 <= k < i && cells[k].Probe? ==> RecordedAt(cells, prefix, cellOf, k)
    {
      if cells[i].Probe? {
        var b, p := cells[i].batch, cells[i].probe;
        if !(b < |cellOf| && p < |cellOf[b]|) {
          return None;
        }
        ghost var was := cellOf;
        var at: nat := prefix + i;
        var row: seq<nat> := cellOf[b][p := at];
        cellOf := cellOf[b := row];
        forall k | Apart(cells) && 0 <= k < i && cells[k].Probe? ensures RecordedAt(cells, prefix, cellOf, k) {
          assert RecordedAt(cells, prefix, was, k) && cells[k] != cells[i];
        }
      }
    }
    r := Some(cellOf);
  }

  lemma RecordsPoint(batches: seq<seq<nat>>, cells: seq<Cell>, metadata: nat, prefix: nat, cellOf: seq<seq<nat>>)
    requires OneToOne(batches, cells, metadata)
    requires |cellOf| == |batches| && (forall b :: 0 <= b < |batches| ==> |cellOf[b]| == |batches[b]|)
    requires forall k :: 0 <= k < |cells| && cells[k].Probe? ==> RecordedAt(cells, prefix, cellOf, k)
    ensures PointsBack(batches, cells, prefix, cellOf)
  {
    forall b, p | 0 <= b < |batches| && 0 <= p < |batches[b]| ensures PointsAt(cells, prefix, cellOf[b][p], b, p) {
      assert Somewhere(cells, b, p);
      var i :| 0 <= i < |cells| && cells[i] == Probe(b, p);
      assert RecordedAt(cells, prefix, cellOf, i);
    }
  }

  // ----- Sixteen bits -----

  function Cut(c: Cell): Cell {
    if c.Probe? then Label(c.batch, c.probe) else c
  }

  function CutAll(cells: seq<Cell>): (r: seq<Cell>)
    ensures |r| == |cells| && forall i :: 0 <= i < |r| ==> r[i] == Cut(cells[i])
  {
    seq(|cells|, i requires 0 <= i < |cells| => Cut(cells[i]))
  }

  predicate NoneEmpty(batches: seq<seq<nat>>) {
    forall b :: 0 <= b < |batches| ==> batches[b] != []
  }

  /** Every label is that of some probe. */
  ghost predicate Recordable(batches: seq<seq<nat>>) {
    forall b, p :: 0 <= b < |batches| && 0 <= p < |batches[b]| ==> InRange(batches, Label(b, p))
  }

  lemma NarrowCuts(batches: seq<seq<nat>>, cells: seq<Cell>, metadata: nat)
    requires Narrow(batches) && OneToOne(batches, cells, metadata)
    ensures CutAll(cells) == cells
  {
    forall i | 0 <= i < |cells| ensures Cut(cells[i]) == cells[i] {
      assert CellFits(batches, cells, metadata, i);
    }
  }

  /** Where sixteen bits do not tell all probes apart, some probe is in no cell, and two cells hold the same. */
  lemma WideLoses(batches: seq<seq<nat>>, cells: seq<Cell>, metadata: nat) returns (b: nat, p: nat)
    requires !Narrow(batches) && NoneEmpty(batches) && OneToOne(batches, cells, metadata)
    ensures b < |batches| && p < |batches[b]| && !Somewhere(CutAll(cells), b, p) && !Apart(CutAll(cells))
  {
    b, p := 0x1_0000, 0;
    var c, q := 0, 0;
    if |batches| <= 0x1_0000 {
      b :| 0 <= b < |batches| && |batches[b]| > 0x1_0000;
      p, c := 0x1_0000, b;
    }
    assert Somewhere(cells, b, p) && Somewhere(cells, c, q);
    var i :| 0 <= i < |cells| && cells[i] == Probe(b, p);
    var j :| 0 <= j < |cells| && cells[j] == Probe(c, q);
    assert CutAll(cells)[i] == CutAll(cells)[j];
  }

  lemma PointsSomewhere(batches: seq<seq<nat>>, cells: seq<Cell>, prefix: nat, cellOf: seq<seq<nat>>, b: nat, p: nat)
    requires PointsBack(batches, cells, prefix, cellOf) && b < |batches| && p < |batches[b]|
    ensures Somewhere(cells, b, p)
  {
    assert PointsAt(cells, prefix, cellOf[b][p], b, p);
  }

  /** The layout is one to one exactly if the batches are narrow, and so are the cells noted. */
  lemma NarrowExactly(batches: seq<seq<nat>>, raw: seq<Cell>, metadata: nat, prefix: nat, cellOf: seq<seq<nat>>)
    requires NoneEmpty(batches) && OneToOne(batches, raw, metadata)
    requires |cellOf| == |batches| && (forall b :: 0 <= b < |batches| ==> |cellOf[b]| == |batches[b]|)
    requires Apart(CutAll(raw)) ==> forall k :: 0 <= k < |raw| && raw[k].Probe? ==> RecordedAt(CutAll(raw), prefix, cellOf, k)
    ensures OneToOne(batches, CutAll(raw), metadata) <==> Narrow(batches)
    ensures PointsBack(batches, CutAll(raw), prefix, cellOf) <==> Narrow(batches)
  {
    if Narrow(batches) {
      NarrowCuts(batches, raw, metadata);
      RecordsPoint(batches, raw, metadata, prefix, cellOf);
    } else {
      var b, p := WideLoses(batches, raw, metadata);
      if PointsBack(batches, CutAll(raw), prefix, cellOf) {
        PointsSomewhere(batches, CutAll(raw), prefix, cellOf, b, p);
      }
    }
  }

  lemma RecordableExactly(batches: seq<seq<nat>>, raw: seq<Cell>, metadata: nat)
    requires OneToOne(batches, raw, metadata)
    ensures Recordable(batches) <==> forall k :: 0 <= k < |raw| && raw[k].Probe? ==> InRange(batches, CutAll(raw)[k])
  {
    if forall k :: 0 <= k < |raw| && raw[k].Probe? ==> InRange(batches, CutAll(raw)[k]) {
      forall b, p | 0 <= b < |batches| && 0 <= p < |batches[b]| ensures InRange(batches, Label(b, p)) {
        assert Somewhere(raw, b, p);
        var i :| 0 <= i < |raw| && raw[i] == Probe(b, p);
        assert InRange(batches, CutAll(raw)[i]);
      }
    } else {
      var k :| 0 <= k < |raw| && raw[k].Probe? && !InRange(batches, CutAll(raw)[k]);
      assert CellFits(batches, raw, metadata, k);
      assert !InRange(batches, Label(raw[k].batch, raw[k].probe));
    }
  }

  // ----- The cells after so many batches -----

  predicate SlotsFit(slots: seq<nat>, len: nat) {
    forall p :: 0 <= p < |slots| ==> slots[p] < len
  }

  predicate AllSlotsFit(batches: seq<seq<nat>>, len: nat) {
    forall b :: 0 <= b < |batches| ==> SlotsFit(batches[b], len)
  }

  /** The first p probes of batch b are put into their slots. */
  function Put(cells: seq<Cell>, slots: seq<nat>, b: nat, p: nat): (r: seq<Cell>)
    requires p <= |slots| && SlotsFit(slots[..p], |cells|)
    ensures |r| == |cells|
  {
    if p == 0 then cells
    else
      assert slots[..p][p - 1] == slots[p - 1] && forall q :: 0 <= q < p - 1 ==> slots[..p - 1][q] == slots[..p][q];
      Put(cells, slots, b, p - 1)[slots[p - 1] := Label(b, p - 1)]
  }

  function After(perm: seq<nat>, batches: seq<seq<nat>>, n: nat): (r: seq<Cell>)
    requires IsPermutation(perm) && n <= |batches| && AllSlotsFit(batches[..n], |perm|)
    ensures |r| == |perm|
  {
    if n == 0 then seq(|perm|, i requires 0 <= i < |perm| => Init(i))
    else
      assert batches[..n][n - 1] == batches[n - 1] && forall b :: 0 <= b < n - 1 ==> batches[..n - 1][b] == batches[..n][b];
      assert batches[n - 1][..|batches[n - 1]|] == batches[n - 1];
      Put(Shuffled(perm, After(perm, batches, n - 1)), batches[n - 1], n - 1, |batches[n - 1]|)
  }

  function AtLast(perm: seq<nat>, batches: seq<seq<nat>>): (r: seq<Cell>)
    requires IsPermutation(perm) && AllSlotsFit(batches, |perm|)
    ensures |r| == |perm|
  {
    assert batches[..|batches|] == batches;
    After(perm, batches, |batches|)
  }

  lemma CutCommutes(perm: seq<nat>, raw: seq<Cell>, s: nat, b: nat, p: nat)
    requires s < |raw|
    ensures IsPermutation(perm) && |perm| == |raw| ==> CutAll(Shuffled(perm, raw)) == Shuffled(perm, CutAll(raw))
    ensures CutAll(raw[s := Probe(b, p)]) == CutAll(raw)[s := Label(b, p)]
    ensures CutAll(raw[s := Metadata]) == CutAll(raw)[s := Metadata]
  {
  }

  /** What comes of placing, case by case in the order of the checks. */
  ghost predicate PlacedAs(perm: seq<nat>, batches: seq<seq<nat>>, r: Result)
    requires IsPermutation(perm)
  {
    match r
    case Fails(EmptyBatch(b)) => b < |batches| && batches[b] == [] && NoneEmpty(batches[..b])
    case Fails(Count) => NoneEmpty(batches) && Total(Sizes(batches)) + 1 != |perm|
    case Fails(Slot(s)) => Counted(perm, batches) && s >= |perm| && exists b :: 0 <= b < |batches| && s in batches[b]
    case Fails(Survivors(n)) =>
      Counted(perm, batches) && AllSlotsFit(batches, |perm|) && n == |SurvivorsOf(AtLast(perm, batches), |perm|)| != 1
    case Panics =>
      Counted(perm, batches) && AllSlotsFit(batches, |perm|) && |SurvivorsOf(AtLast(perm, batches), |perm|)| == 1 && !Recordable(batches)
    case Laid(cells, metadata, _) =>
      && Counted(perm, batches) && AllSlotsFit(batches, |perm|) && SurvivorsOf(AtLast(perm, batches), |perm|) == [metadata] && Recordable(batches)
      && metadata < |perm| && cells == AtLast(perm, batches)[metadata := Metadata]
  }

  predicate Counted(perm: seq<nat>, batches: seq<seq<nat>>) {
    NoneEmpty(batches) && Total(Sizes(batches)) + 1 == |perm|
  }

  method CountProbes(batches: seq<seq<nat>>) returns (total: nat)
    ensures total == Total(Sizes(batches))
  {
    total := 0;
    assert Sizes(batches)[..0] == [];
    for b := 0 to |batches|
      invariant total == Total(Sizes(batches)[..b])
    {
      assert Sizes(batches)[..b + 1][..b] == Sizes(batches)[..b];
      total := total + |batches[b]|;
    }
    assert Sizes(batches)[..|batches|] == Sizes(batches);
  }

  /** Cells and probes correspond as long as the labels tell the probes apart. */
  ghost predicate Corresponds(batches: seq<seq<nat>>, prefix: nat, r: Result) {
    r.Laid? ==> (OneToOne(batches, r.cells, r.metadata) <==> Narrow(batches))
                && (PointsBack(batches, r.cells, prefix, r.cellOf) <==> Narrow(batches))
  }

  method FindEmpty(batches: seq<seq<nat>>) returns (r: Option<nat>)
    ensures match r
            case Some(b) => b < |batches| && batches[b] == [] && NoneEmpty(batches[..b])
            case None => NoneEmpty(batches)
  {
    for b := 0 to |batches|
      invariant NoneEmpty(batches[..b])
    {
      if batches[b] == [] {
        return Some(b);
      }
    }
    assert batches[..|batches|] == batches;
    return None;
  }

  /** Puts the probes of one batch into their slots; `raw` has labels that are not cut. */
  method PlaceBatch(batches: seq<seq<nat>>, b: nat, start: seq<Cell>, ghost first: seq<Cell>) returns (cur: seq<Cell>, bad: Option<nat>, ghost raw: seq<Cell>)
    requires b < |batches| && Placed(batches, first, b, 0) && start == CutAll(first)
    ensures match bad
            case Some(s) => s >= |start| && s in batches[b]
            case None => SlotsFit(batches[b], |start|) && SlotsFit(batches[b][..|batches[b]|], |start|)
                         && cur == Put(start, batches[b], b, |batches[b]|) == CutAll(raw) && Placed(batches, raw, b + 1, 0)
  {
    cur, raw := start, first;
    for p := 0 to |batches[b]|
      invariant |raw| == |cur| == |start| && Placed(batches, raw, b, p) && cur == CutAll(raw)
      invariant SlotsFit(batches[b][..p], |start|) && cur == Put(start, batches[b], b, p)
    {
      var s := batches[b][p];
      if s >= |start| {
        return cur, Some(s), raw;
      }
      PutKeeps(batches, raw, b, p, s);
      CutCommutes([], raw, s, b, p);
      assert SlotsFit(batches[b][..p + 1], |start|);
      cur, raw := cur[s := Label(b, p)], raw[s := Probe(b, p)];
    }
    BatchDone(batches, raw, b);
    assert batches[b][..|batches[b]|] == batches[b];
    bad := None;
  }

  /** The one cell left over is for the metadata; then the cells are noted. */
  method Finish(batches: seq<seq<nat>>, cur: seq<Cell>, prefix: nat, ghost raw: seq<Cell>) returns (r: Result)
    requires Placed(batches, raw, |batches|, 0) && cur == CutAll(raw) && Total(Sizes(batches)) + 1 == |cur| && NoneEmpty(batches)
    ensures match r
            case Fails(e) => e.Survivors? && e.n == |SurvivorsOf(cur, |cur|)| != 1
            case Panics => |SurvivorsOf(cur, |cur|)| == 1 && !Recordable(batches)
            case Laid(cells, metadata, _) =>
              && SurvivorsOf(cur, |cur|) == [metadata] && Recordable(batches)
              && metadata < |cur| && cells == cur[metadata := Metadata]
    ensures Corresponds(batches, prefix, r)
  {
    hide Recordable, Placed, NoneEmpty, OneToOne, PointsBack, Narrow;
    var survivors := SurvivorsOf(cur, |cur|);
    if |survivors| != 1 {
      return Fails(Survivors(|survivors|));
    }
    var m := survivors[0];
    OneSurvivor(cur);
    assert forall j :: 0 <= j < |raw| ==> (raw[j].Init? <==> cur[j].Init?);
    LaidOneToOne(batches, raw, m);
    CutCommutes([], raw, m, 0, 0);
    ghost var done := raw[m := Metadata];
    var cells := cur[m := Metadata];
    RecordableExactly(batches, done, m);
    assert forall k :: 0 <= k < |done| ==> (done[k].Probe? <==> cells[k].Probe?);
    var cellOf := RecordCells(batches, cells, prefix);
    if cellOf.None? {
      return Panics;
    }
    NarrowExactly(batches, done, m, prefix, cellOf.value);
    r := Laid(cells, m, cellOf.value);
  }

  /** Shuffles and places batch after batch. */
  method Place(perm: seq<nat>, batches: seq<seq<nat>>, prefix: nat) returns (r: Result)
    requires IsPermutation(perm)
    ensures PlacedAs(perm, batches, r)
    ensures r.Laid? ==> |r.cells| == |perm|
    ensures Corresponds(batches, prefix, r)
  {
    hide Placed, OneToOne, PointsBack, Recordable, CutAll, Shuffled;
    var empty := FindEmpty(batches);
    if empty.Some? {
      return Fails(EmptyBatch(empty.value));
    }
    var len := |perm|;
    var total := CountProbes(batches);
    if total + 1 != len {
      return Fails(Count);
    }
    var cur := seq(len, i requires 0 <= i < len => Init(i));
    ghost var raw := cur;
    FirstPlaced(batches, cur);
    for b := 0 to |batches|
      invariant |raw| == |cur| == len && Placed(batches, raw, b, 0) && cur == CutAll(raw)
      invariant AllSlotsFit(batches[..b], len) && cur == After(perm, batches, b)
    {
      ShuffleKeeps(perm, batches, raw, b, 0);
      CutCommutes(perm, raw, 0, 0, 0);
      var bad: Option<nat>;
      cur, bad, raw := PlaceBatch(batches, b, Shuffled(perm, cur), Shuffled(perm, raw));
      if bad.Some? {
        return Fails(Slot(bad.value));
      }
      AllFitNext(batches, b, len);
    }
    assert batches[..|batches|] == batches;
    r := Finish(batches, cur, prefix, raw);
  }

  lemma FirstPlaced(batches: seq<seq<nat>>, cells: seq<Cell>)
    requires forall i :: 0 <= i < |cells| ==> cells[i].Init?
    ensures Placed(batches, cells, 0, 0) && CutAll(cells) == cells
  {
  }

  lemma AllFitNext(batches: seq<seq<nat>>, b: nat, len: nat)
    requires b < |batches| && AllSlotsFit(batches[..b], len) && SlotsFit(batches[b], len)
    ensures AllSlotsFit(batches[..b + 1], len)
  {
    assert forall c :: 0 <= c < b ==> batches[..b + 1][c] == batches[..b][c];
  }

  // ----- A batch of 65537 probes -----

  function Upto(n: nat): (r: seq<nat>)
    ensures |r| == n && forall i :: 0 <= i < n ==> r[i] == i
  {
    seq(n, i requires 0 <= i < n => i)
  }

  /** One batch that fills the cells in order, shuffled by the identity. */
  lemma {:induction false} Straight(n: nat, p: nat)
    requires p <= n
    ensures IsPermutation(Upto(n + 1)) && SlotsFit(Upto(n)[..p], n + 1)
    ensures var cells := Put(Shuffled(Upto(n + 1), After(Upto(n + 1), [Upto(n)], 0)), Upto(n), 0, p);
            |cells| == n + 1 && forall i :: 0 <= i <= n ==> cells[i] == if i < p then Label(0, i) else Init(i)
  {
    if p > 0 {
      Straight(n, p - 1);
    }
  }

  lemma {:induction false} LastSurvives(cells: seq<Cell>, n: nat, k: nat)
    requires n < |cells| && k <= n + 1 && forall i :: 0 <= i <= n ==> (cells[i].Init? <==> i == n)
    ensures SurvivorsOf(cells, k) == if k <= n then [] else [n]
  {
    if k > 0 {
      LastSurvives(cells, n, k - 1);
    }
  }

  lemma LongFits(n: nat)
    requires n > 0
    ensures Counted(Upto(n + 1), [Upto(n)]) && AllSlotsFit([Upto(n)], n + 1) && Recordable([Upto(n)])
  {
    assert Sizes([Upto(n)]) == [n] && [n][..0] == [];
  }

  lemma LongCells(n: nat)
    requires n > 0
    ensures IsPermutation(Upto(n + 1)) && AllSlotsFit([Upto(n)], n + 1)
    ensures var cells := AtLast(Upto(n + 1), [Upto(n)]);
            |cells| == n + 1 && forall i :: 0 <= i <= n ==> cells[i] == if i < n then Label(0, i) else Init(i)
  {
    hide Put, Shuffled;
    var perm, batches := Upto(n + 1), [Upto(n)];
    Straight(n, n);
    assert Upto(n)[..n] == Upto(n) && batches[..0] == [] && batches[..1] == batches;
    assert AtLast(perm, batches) == After(perm, batches, 1);
    assert After(perm, batches, 1) == Put(Shuffled(perm, After(perm, batches, 0)), Upto(n), 0, n);
  }

  /** Placing one batch of n probes in order succeeds, however many they are; from 65537 on, two cells
      hold the same label, and the layout is not one to one. */
  lemma LongBatch(n: nat, prefix: nat, r: Result)
    requires n > 0 && IsPermutation(Upto(n + 1)) && PlacedAs(Upto(n + 1), [Upto(n)], r) && Corresponds([Upto(n)], prefix, r)
    ensures r.Laid? && |r.cells| == n + 1 && (OneToOne([Upto(n)], r.cells, r.metadata) <==> n <= 0x1_0000)
    ensures n > 0x1_0000 ==> r.cells[0] == r.cells[0x1_0000]
  {
    hide After, AtLast, SurvivorsOf, Recordable, OneToOne, PointsBack, Upto, Total;
    LongFits(n);
    LongCells(n);
    LastSurvives(AtLast(Upto(n + 1), [Upto(n)]), n, n + 1);
  }
}
