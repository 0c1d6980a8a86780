/** The decoder that is used: templates are compiled to byte programs beforehand, and the kind of a
    value is looked up in a table. */
module Shapes {
  import opened Basics
  import opened Decoding

  const OP_VALUE: Byte := 0
  const OP_REG: Byte := 1
  const OP_DEST: Byte := 2
  const OP_PC: Byte := 3
  const OP_SEEK: Byte := 0x80
  const NO_SLOT: Byte := 0xFF
  const TAG_SPAN: nat := 4096

  datatype Shape = Shape(program: seq<Byte>, branch: Byte)

  function OpcodeOf(kind: ReadKind): Byte {
    match kind
    case Value => OP_VALUE
    case Reg => OP_REG
    case DestReg => OP_DEST
    case Here => OP_PC
  }

  /** The program of the reads from the i-th on. */
  function ProgramFrom(t: Template, i: nat, seek: nat): seq<Byte>
    requires i <= |t.operands| && seek <= |t.seeks|
    decreases |t.operands| - i + |t.seeks| - seek
  {
    if seek < |t.seeks| && (i == |t.operands| || t.seeks[seek].at == i) then
      [OP_SEEK, t.seeks[seek].slot] + ProgramFrom(t, i, seek + 1)
    else if i < |t.operands| then [OpcodeOf(t.operands[i])] + ProgramFrom(t, i + 1, seek)
    else []
  }

  function ShapeOf(t: Template): Shape {
    Shape(ProgramFrom(t, 0, 0), if t.branch.Some? then t.branch.value else NO_SLOT)
  }

  method Compile(t: Template) returns (s: Shape)
    ensures s == ShapeOf(t)
  {
    var code: seq<Byte>, seek: nat := [], 0;
    assert [] + ProgramFrom(t, 0, 0) == ProgramFrom(t, 0, 0);
    for i := 0 to |t.operands|
      invariant seek <= |t.seeks|
      invariant ProgramFrom(t, 0, 0) == code + ProgramFrom(t, i, seek)
    {
      while seek < |t.seeks| && t.seeks[seek].at == i
        invariant seek <= |t.seeks|
        invariant ProgramFrom(t, 0, 0) == code + ProgramFrom(t, i, seek)
      {
        Appends(code, [OP_SEEK, t.seeks[seek].slot], ProgramFrom(t, i, seek + 1));
        code := code + [OP_SEEK, t.seeks[seek].slot];
        seek := seek + 1;
      }
      Appends(code, [OpcodeOf(t.operands[i])], ProgramFrom(t, i + 1, seek));
      code := code + [OpcodeOf(t.operands[i])];
    }
    while seek < |t.seeks|
      invariant seek <= |t.seeks|
      invariant ProgramFrom(t, 0, 0) == code + ProgramFrom(t, |t.operands|, seek)
    {
      Appends(code, [OP_SEEK, t.seeks[seek].slot], ProgramFrom(t, |t.operands|, seek + 1));
      code := code + [OP_SEEK, t.seeks[seek].slot];
      seek := seek + 1;
    }
    assert code + [] == code;
    s := Shape(code, if t.branch.Some? then t.branch.value else NO_SLOT);
  }

  lemma Appends(a: seq<Byte>, b: seq<Byte>, c: seq<Byte>)
    ensures a + (b + c) == (a + b) + c
  {
  }

  // ----- Kinds of values -----

  datatype Kind = KReg | KText | KDouble | KTrue | KFalse | KNull | KUndefined

  /** The tags in the order in which both decoders go through them. */
  function Listed(t: Tags): seq<(Int32, Kind)> {
    [(t.text, KText), (t.double, KDouble), (t.yes, KTrue), (t.no, KFalse), (t.nil, KNull), (t.undefined, KUndefined)]
  }

  /** The kind of the first tag equal to w. */
  function FirstKind(tags: seq<(Int32, Kind)>, w: int): Kind {
    if tags == [] then KReg else if tags[0].0 == w then tags[0].1 else FirstKind(tags[1..], w)
  }

  /** The kind of the last tag equal to w. */
  function LastKind(tags: seq<(Int32, Kind)>, w: int): Kind {
    if tags == [] then KReg
    else if tags[|tags| - 1].0 == w then tags[|tags| - 1].1
    else LastKind(tags[..|tags| - 1], w)
  }

  /** The table for small words: a later tag overwrites an earlier one. */
  method BuildKinds(t: Tags) returns (kinds: array<Kind>)
    ensures fresh(kinds) && kinds.Length == TAG_SPAN
    ensures forall w :: 0 <= w < TAG_SPAN ==> kinds[w] == LastKind(Listed(t), w)
  {
    kinds := new Kind[TAG_SPAN](_ => KReg);
    var tags := Listed(t);
    for k := 0 to |tags|
      invariant forall w :: 0 <= w < TAG_SPAN ==> kinds[w] == LastKind(tags[..k], w)
    {
      assert tags[..k + 1][..k] == tags[..k];
      if 0 <= tags[k].0 < TAG_SPAN {
        kinds[tags[k].0] := tags[k].1;
      }
    }
    assert tags[..|tags|] == tags;
  }

  /** The kind of a word: by the table if it is small, by the tags otherwise. */
  function KindOf(t: Tags, w: Int32): Kind {
    if 0 <= w < TAG_SPAN then LastKind(Listed(t), w) else FirstKind(Listed(t), w)
  }

  method LookUp(t: Tags, kinds: array<Kind>, w: Int32) returns (k: Kind)
    requires kinds.Length == TAG_SPAN && forall w :: 0 <= w < TAG_SPAN ==> kinds[w] == LastKind(Listed(t), w)
    ensures k == KindOf(t, w)
  {
    if 0 <= w < TAG_SPAN {
      k := kinds[w];
    } else {
      k := FirstKind(Listed(t), w);
    }
  }

  // ----- Decoding by program -----

  function FastValueAt(d: Decoder, at: nat): Option<(Operand, nat)> {
    var w :- WordAt(d.code, at);
    if w % 2 != 0 then Some((Integer(Shifted(w, 1)), at + 1))
    else
      match KindOf(d.tags, w)
      case KReg => Some((Register(Shifted(w, d.valueShift)), at + 1))
      case KText => (var v :- TextAt(d, at + 1); Some((v, at + 3)))
      case KDouble => (var v :- DoubleAt(d, at + 1); Some((v, at + 3)))
      case KTrue => Some((True, at + 1))
      case KFalse => Some((False, at + 1))
      case KNull => Some((Null, at + 1))
      case KUndefined => Some((Undefined, at + 1))
  }

  /** An opcode that reads an operand. */
  function FastReadAt(d: Decoder, op: Byte, at: nat): Option<(Operand, nat)>
    requires op < 4
  {
    if op == OP_VALUE then FastValueAt(d, at)
    else ReadAt(d, if op == OP_REG then Reg else if op == OP_DEST then DestReg else Here, at)
  }

  /** What the rest of a program reads. Any other opcode is a seek, with its slot behind it. */
  function ProgramReads(d: Decoder, program: seq<Byte>, at: nat, ops: seq<Operand>): Option<(seq<Operand>, nat)>
    decreases |program|
  {
    if program == [] then Some((ops, at))
    else if program[0] < 4 then
      var (op, next) :- FastReadAt(d, program[0], at);
      ProgramReads(d, program[1..], next, ops + [op])
    else if |program| == 1 then None
    else
      var to :- TargetIn(ops, program[1]);
      ProgramReads(d, program[2..], to, ops)
  }

  function FastDecodeAt(d: Decoder, pc: nat, s: Shape): Option<Decoded> {
    var (ops, at) :- ProgramReads(d, s.program, pc + 1, []);
    Concluded(if s.branch == NO_SLOT then None else Some(s.branch), ops, at)
  }

  method FastDecode(d: Decoder, pc: nat, s: Shape) returns (r: Option<Decoded>)
    ensures r == FastDecodeAt(d, pc, s)
  {
    var at: nat, ops: seq<Operand>, i: nat := pc + 1, [], 0;
    assert s.program[0..] == s.program;
    while i < |s.program|
      invariant i <= |s.program|
      invariant ProgramReads(d, s.program, pc + 1, []) == ProgramReads(d, s.program[i..], at, ops)
    {
      var op := s.program[i];
      assert s.program[i..][1..] == s.program[i + 1..];
      i := i + 1;
      if op < 4 {
        var read := FastReadAt(d, op, at);
        if read.None? {
          return None;
        }
        at, ops := read.value.1, ops + [read.value.0];
      } else {
        if i == |s.program| {
          return None;
        }
        assert s.program[i - 1..][2..] == s.program[i + 1..];
        var to := TargetIn(ops, s.program[i]);
        if to.None? {
          return None;
        }
        at := to.value;
        i := i + 1;
      }
    }
    r := Concluded(if s.branch == NO_SLOT then None else Some(s.branch), ops, at);
  }
}
