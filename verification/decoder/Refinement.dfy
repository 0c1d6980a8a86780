/** The two decoders agree, on every piece of code, exactly if no two kinds share a tag that the table
    holds, and no branch is in the last slot. */
module Refinement {
  import opened Basics
  import opened Decoding
  import opened Shapes

  // ----- Values -----

  /** No two of the tags that the table holds are the same; odd words are integers, whatever the tags. */
  predicate Apart(t: Tags) {
    forall i, j :: 0 <= i < j < 6 && Listed(t)[i].0 == Listed(t)[j].0 ==> !Tabled(Listed(t)[i].0)
  }

  predicate Tabled(w: Int32) {
    0 <= w < TAG_SPAN && w % 2 == 0
  }

  lemma {:induction false} LastIsFirst(tags: seq<(Int32, Kind)>, w: int)
    requires forall i, j :: 0 <= i < j < |tags| && tags[i].0 == tags[j].0 ==> tags[i].0 != w
    ensures LastKind(tags, w) == FirstKind(tags, w)
  {
    if tags != [] {
      var n := |tags| - 1;
      if tags[n].0 == w {
        FirstAtEnd(tags, w);
      } else {
        LastIsFirst(tags[..n], w);
        FirstSkipsEnd(tags, w);
      }
    }
  }

  lemma {:induction false} FirstAtEnd(tags: seq<(Int32, Kind)>, w: int)
    requires tags != [] && tags[|tags| - 1].0 == w && forall i :: 0 <= i < |tags| - 1 ==> tags[i].0 != w
    ensures FirstKind(tags, w) == tags[|tags| - 1].1
  {
    if |tags| > 1 {
      FirstAtEnd(tags[1..], w);
    }
  }

  lemma {:induction false} FirstSkipsEnd(tags: seq<(Int32, Kind)>, w: int)
    requires tags != [] && tags[|tags| - 1].0 != w
    ensures FirstKind(tags, w) == FirstKind(tags[..|tags| - 1], w)
  {
    if |tags| > 1 {
      FirstSkipsEnd(tags[1..], w);
      assert tags[1..][..|tags| - 2] == tags[..|tags| - 1][1..];
    }
  }

  /** The plain decoder goes by the first tag that fits. */
  lemma PlainByKind(d: Decoder, at: nat)
    requires at < |d.code| && d.code[at] % 2 == 0
    requires FirstKind(Listed(d.tags), d.code[at]) == KindOf(d.tags, d.code[at])
    ensures FastValueAt(d, at) == ValueAt(d, at)
  {
    var w, t := d.code[at], d.tags;
    FirstOfSix(t, w);
  }

  lemma FirstOfSix(t: Tags, w: Int32)
    ensures FirstKind(Listed(t), w) ==
      if w == t.text then KText else if w == t.double then KDouble else if w == t.yes then KTrue
      else if w == t.no then KFalse else if w == t.nil then KNull else if w == t.undefined then KUndefined else KReg
  {
    var s0 := Listed(t);
    var s1 := s0[1..];
    var s2 := s1[1..];
    var s3 := s2[1..];
    var s4 := s3[1..];
    var s5 := s4[1..];
    assert FirstKind(s5[1..], w) == KReg;
    assert FirstKind(s5, w) == if w == t.undefined then KUndefined else KReg;
    assert FirstKind(s4, w) == if w == t.nil then KNull else FirstKind(s5, w);
    assert FirstKind(s3, w) == if w == t.no then KFalse else FirstKind(s4, w);
    assert FirstKind(s2, w) == if w == t.yes then KTrue else FirstKind(s3, w);
    assert FirstKind(s1, w) == if w == t.double then KDouble else FirstKind(s2, w);
  }

  lemma ValuesAgree(d: Decoder, at: nat)
    requires Apart(d.tags)
    ensures FastValueAt(d, at) == ValueAt(d, at)
  {
    if at < |d.code| && d.code[at] % 2 == 0 {
      var w := d.code[at];
      if 0 <= w < TAG_SPAN {
        LastIsFirst(Listed(d.tags), w);
      }
      PlainByKind(d, at);
    }
  }

  // ----- Programs -----

  lemma {:induction false} ProgramsAgree(d: Decoder, t: Template, i: nat, seek: nat, at: nat, ops: seq<Operand>)
    requires Apart(d.tags) && i <= |t.operands| && seek <= |t.seeks|
    ensures ProgramReads(d, ProgramFrom(t, i, seek), at, ops) == ReadsFrom(d, t, i, seek, at, ops)
    decreases |t.operands| - i + |t.seeks| - seek
  {
    var program := ProgramFrom(t, i, seek);
    if seek < |t.seeks| && (i == |t.operands| || t.seeks[seek].at == i) {
      assert program[2..] == ProgramFrom(t, i, seek + 1);
      var to := TargetIn(ops, t.seeks[seek].slot);
      if to.Some? {
        ProgramsAgree(d, t, i, seek + 1, to.value, ops);
      }
    } else if i < |t.operands| {
      assert program[1..] == ProgramFrom(t, i + 1, seek);
      ValuesAgree(d, at);
      var read := ReadAt(d, t.operands[i], at);
      if read.Some? {
        ProgramsAgree(d, t, i + 1, seek, read.value.1, ops + [read.value.0]);
      }
    }
  }

  predicate BranchSlotted(t: Template) {
    t.branch != Some(NO_SLOT)
  }

  /** Same operands, same next address, same target, or both fail. */
  lemma DecodersAgree(d: Decoder, t: Template, pc: nat)
    requires Apart(d.tags) && BranchSlotted(t)
    ensures FastDecodeAt(d, pc, ShapeOf(t)) == DecodeAt(d, pc, t)
  {
    ProgramsAgree(d, t, 0, 0, pc + 1, []);
  }

  // ----- The conditions are exact -----

  ghost predicate TagsAgree(t: Tags) {
    forall d: Decoder, at: nat :: d.tags == t ==> FastValueAt(d, at) == ValueAt(d, at)
  }

  /** Two kinds never decode to the same value. */
  lemma KindsTell(d: Decoder, w: Int32)
    requires d.code == [w, 0, 0] && w % 2 == 0 && FirstKind(Listed(d.tags), w) != KindOf(d.tags, w)
    ensures FastValueAt(d, 0) != ValueAt(d, 0)
  {
    FirstOfSix(d.tags, w);
  }

  lemma {:induction false} FirstIsEarliest(tags: seq<(Int32, Kind)>, w: int, i: nat)
    requires i < |tags| && tags[i].0 == w
    ensures exists k :: 0 <= k <= i && tags[k] == (w, FirstKind(tags, w))
  {
    if tags[0].0 == w {
      assert tags[0] == (w, FirstKind(tags, w));
    } else {
      FirstIsEarliest(tags[1..], w, i - 1);
      var k :| 0 <= k <= i - 1 && tags[1..][k] == (w, FirstKind(tags[1..], w));
      assert tags[k + 1] == (w, FirstKind(tags, w));
    }
  }

  lemma {:induction false} LastIsLatest(tags: seq<(Int32, Kind)>, w: int, j: nat)
    requires j < |tags| && tags[j].0 == w
    ensures exists k :: j <= k < |tags| && tags[k] == (w, LastKind(tags, w))
  {
    var n := |tags| - 1;
    if tags[n].0 == w {
      assert tags[n] == (w, LastKind(tags, w));
    } else {
      LastIsLatest(tags[..n], w, j);
      var k :| j <= k < n && tags[..n][k] == (w, LastKind(tags[..n], w));
      assert tags[k] == (w, LastKind(tags, w));
    }
  }

  lemma KindsDiffer(t: Tags)
    ensures forall i, j :: 0 <= i < j < 6 ==> Listed(t)[i].1 != Listed(t)[j].1
  {
  }

  /** Values are decoded alike from all code if and only if the tabled tags are apart. */
  lemma ApartExactly(t: Tags)
    ensures TagsAgree(t) <==> Apart(t)
  {
    if Apart(t) {
      forall d: Decoder, at: nat | d.tags == t ensures FastValueAt(d, at) == ValueAt(d, at) {
        ValuesAgree(d, at);
      }
    } else {
      var i, j :| 0 <= i < j < 6 && Listed(t)[i].0 == Listed(t)[j].0 && Tabled(Listed(t)[i].0);
      var w := Listed(t)[i].0;
      FirstIsEarliest(Listed(t), w, i);
      LastIsLatest(Listed(t), w, j);
      KindsDiffer(t);
      var d := Decoder([w, 0, 0], t, 0, 0, 0, true, 0);
      KindsTell(d, w);
      assert d.tags == t;
    }
  }

  // ----- Branches in the last slot -----

  /** Every seek goes by an operand that is read before it and that can name an address. */
  predicate SeeksReady(t: Template, i: nat, seek: nat)
    requires i <= |t.operands| && seek <= |t.seeks|
    decreases |t.operands| - i + |t.seeks| - seek
  {
    if seek < |t.seeks| && (i == |t.operands| || t.seeks[seek].at == i) then
      t.seeks[seek].slot < i && (t.operands[t.seeks[seek].slot].Value? || t.operands[t.seeks[seek].slot].Here?)
      && SeeksReady(t, i, seek + 1)
    else i < |t.operands| ==> SeeksReady(t, i + 1, seek)
  }

  /** The operands come of these reads. */
  predicate OfKinds(kinds: seq<ReadKind>, ops: seq<Operand>) {
    |ops| <= |kinds| && forall k :: 0 <= k < |ops| ==> (kinds[k].Reg? || kinds[k].DestReg? ==> ops[k].Register? || ops[k].Dest?)
  }

  /** A seek that is not ready makes every decoding fail. */
  lemma {:induction false} UnreadyFails(d: Decoder, t: Template, i: nat, seek: nat, at: nat, ops: seq<Operand>)
    requires i == |ops| && i <= |t.operands| && seek <= |t.seeks| && OfKinds(t.operands, ops) && !SeeksReady(t, i, seek)
    ensures ReadsFrom(d, t, i, seek, at, ops).None?
    decreases |t.operands| - i + |t.seeks| - seek
  {
    if seek < |t.seeks| && (i == |t.operands| || t.seeks[seek].at == i) {
      var to := TargetIn(ops, t.seeks[seek].slot);
      if to.Some? {
        UnreadyFails(d, t, i, seek + 1, to.value, ops);
      }
    } else if i < |t.operands| {
      var read := ReadAt(d, t.operands[i], at);
      if read.Some? {
        UnreadyFails(d, t, i + 1, seek, read.value.1, ops + [read.value.0]);
      }
    }
  }

  /** Code in which every word is 1: as a value the integer 0. */
  function Ones(n: nat): (d: Decoder)
    ensures Apart(d.tags)
  {
    Decoder(seq(n, _ => 1), Tags(0, 2, 4, 6, 8, 10), 0, 0, 0, true, 0)
  }

  /** What is read from it, at places that were read through before. */
  predicate OfOnes(kinds: seq<ReadKind>, ops: seq<Operand>) {
    && |ops| <= |kinds|
    && forall k :: 0 <= k < |ops| ==>
                     (kinds[k].Value? ==> ops[k] == Integer(0)) && (kinds[k].Here? ==> ops[k].Pc? && ops[k].p <= k + 1)
  }

  lemma {:induction false} ReadyDecodes(t: Template, i: nat, seek: nat, at: nat, ops: seq<Operand>)
    requires i == |ops| && i <= |t.operands| && seek <= |t.seeks| && OfOnes(t.operands, ops) && SeeksReady(t, i, seek)
    requires at <= i + 1 && |t.operands| + 1 < TWO_32
    ensures var r := ReadsFrom(Ones(|t.operands| + 2), t, i, seek, at, ops);
            r.Some? && r.value.1 <= |t.operands| + 1 && |r.value.0| == |t.operands| && OfOnes(t.operands, r.value.0)
    decreases |t.operands| - i + |t.seeks| - seek
  {
    var d := Ones(|t.operands| + 2);
    if seek < |t.seeks| && (i == |t.operands| || t.seeks[seek].at == i) {
      var to := TargetIn(ops, t.seeks[seek].slot);
      ReadyDecodes(t, i, seek + 1, to.value, ops);
    } else if i < |t.operands| {
      assert Power2(0) == 1 && Shifted(1, 1) == 0;
      var read := ReadAt(d, t.operands[i], at);
      ReadyDecodes(t, i + 1, seek, read.value.1, ops + [read.value.0]);
    }
  }

  /** For all templates short enough for a program span: the two decoders agree on all code with tags apart
      if and only if no branch is in slot 255, or the template decodes nowhere. */
  lemma LastSlotExactly(t: Template)
    requires |t.operands| + 1 < TWO_32
    ensures (forall d: Decoder, pc: nat :: Apart(d.tags) ==> FastDecodeAt(d, pc, ShapeOf(t)) == DecodeAt(d, pc, t))
            <==> BranchSlotted(t) || !SeeksReady(t, 0, 0)
  {
    if BranchSlotted(t) {
      forall d: Decoder, pc: nat | Apart(d.tags) ensures FastDecodeAt(d, pc, ShapeOf(t)) == DecodeAt(d, pc, t) {
        DecodersAgree(d, t, pc);
      }
    } else if !SeeksReady(t, 0, 0) {
      forall d: Decoder, pc: nat | Apart(d.tags) ensures FastDecodeAt(d, pc, ShapeOf(t)) == DecodeAt(d, pc, t) {
        ProgramsAgree(d, t, 0, 0, pc + 1, []);
        UnreadyFails(d, t, 0, 0, pc + 1, []);
      }
    } else {
      var d := Ones(|t.operands| + 2);
      ProgramsAgree(d, t, 0, 0, 1, []);
      ReadyDecodes(t, 0, 0, 1, []);
      assert FastDecodeAt(d, 0, ShapeOf(t)) != DecodeAt(d, 0, t);
    }
  }

  /** The template that reads n values and branches by slot 255. */
  function LastSlotTemplate(n: nat): Template {
    Template(seq(n, _ => Value), [], Some(NO_SLOT), false, [], [])
  }

  lemma {:induction false} NoSeeksReady(t: Template, i: nat)
    requires t.seeks == [] && i <= |t.operands|
    ensures SeeksReady(t, i, 0)
    decreases |t.operands| - i
  {
    if i < |t.operands| {
      NoSeeksReady(t, i + 1);
    }
  }

  /** It comes out without a target where it should fail, or, from 256 values on, where it has one. */
  lemma LastSlotDiffers(n: nat)
    requires n + 1 < TWO_32
    ensures var d, t := Ones(n + 2), LastSlotTemplate(n);
            && FastDecodeAt(d, 0, ShapeOf(t)).Some? && FastDecodeAt(d, 0, ShapeOf(t)).value.target.None?
            && (n < 256 ==> DecodeAt(d, 0, t).None?)
            && (n >= 256 ==> DecodeAt(d, 0, t).Some? && DecodeAt(d, 0, t).value.target == Some(0))
  {
    hide ReadsFrom, SeeksReady, OfOnes, Apart;
    var t := LastSlotTemplate(n);
    NoSeeksReady(t, 0);
    ReadyDecodes(t, 0, 0, 1, []);
    ProgramsAgree(Ones(n + 2), t, 0, 0, 1, []);
  }
}
