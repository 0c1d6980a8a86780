/** Instructions of the disassembled program: templates say what to read, and the plain decoder reads
    it from the code words. */
module Decoding {
  import opened Basics

  const TWO_32: nat := 0x1_0000_0000

  type Int32 = x: int | -0x8000_0000 <= x < 0x8000_0000

  type Byte = b: int | 0 <= b < 256

  datatype Operand =
    | Integer(i: int)
    | Double(hi: Int32, lo: Int32)
    | Text(off: nat, len: nat)
    | True
    | False
    | Null
    | Undefined
    | Register(r: int)
    | Dest(d: nat)
    | Pc(p: nat)

  datatype ReadKind = Value | Reg | DestReg | Here

  /** Before the read numbered `at` (and all seeks left over after the last one), decoding goes on at
      the target in the operand `slot`. */
  datatype Seek = Seek(at: Byte, slot: Byte)

  datatype Template = Template(operands: seq<ReadKind>, seeks: seq<Seek>, branch: Option<Byte>, falls: bool,
                               closures: seq<Byte>, targets: seq<Byte>)

  datatype Tags = Tags(text: Int32, double: Int32, yes: Int32, no: Int32, nil: Int32, undefined: Int32)

  datatype Decoder = Decoder(code: seq<Int32>, tags: Tags, valueShift: nat, regShift: nat, destShift: nat, lenFirst: bool, poolLen: nat)

  /** An arithmetic shift to the right. */
  function Shifted(w: Int32, k: nat): int {
    w / Power2(k)
  }

  function WordAt(code: seq<Int32>, at: nat): Option<Int32> {
    if at < |code| then Some(code[at]) else None
  }

  function TextAt(d: Decoder, at: nat): Option<Operand> {
    var a :- WordAt(d.code, at);
    var b :- WordAt(d.code, at + 1);
    var (len, off) := if d.lenFirst then (a, b) else (b, a);
    if len < 0 || off < 0 || off + len > d.poolLen then None else Some(Text(off, len))
  }

  function DoubleAt(d: Decoder, at: nat): Option<Operand> {
    var hi :- WordAt(d.code, at);
    var lo :- WordAt(d.code, at + 1);
    Some(Double(hi, lo))
  }

  /** One tagged value, and where decoding goes on. */
  function ValueAt(d: Decoder, at: nat): Option<(Operand, nat)> {
    var w :- WordAt(d.code, at);
    if w % 2 != 0 then Some((Integer(Shifted(w, 1)), at + 1))
    else if w == d.tags.text then (var v :- TextAt(d, at + 1); Some((v, at + 3)))
    else if w == d.tags.double then (var v :- DoubleAt(d, at + 1); Some((v, at + 3)))
    else if w == d.tags.yes then Some((True, at + 1))
    else if w == d.tags.no then Some((False, at + 1))
    else if w == d.tags.nil then Some((Null, at + 1))
    else if w == d.tags.undefined then Some((Undefined, at + 1))
    else Some((Register(Shifted(w, d.valueShift)), at + 1))
  }

  /** The code address that an operand names. */
  function TargetOf(op: Operand): Option<nat> {
    match op
    case Integer(i) => if i >= 0 then Some(i) else None
    case Pc(p) => Some(p)
    case _ => None
  }

  function TargetIn(ops: seq<Operand>, slot: nat): Option<nat> {
    if slot < |ops| then TargetOf(ops[slot]) else None
  }

  function ReadAt(d: Decoder, kind: ReadKind, at: nat): Option<(Operand, nat)> {
    match kind
    case Value => ValueAt(d, at)
    case Reg => (var w :- WordAt(d.code, at); Some((Register(Shifted(w, d.regShift)), at + 1)))
    case DestReg =>
      var w :- WordAt(d.code, at);
      var r := Shifted(w, d.destShift);
      if r < 0 then None else Some((Dest(r), at + 1))
    case Here => Some((Pc(at % TWO_32), at + 1))
  }

  /** Reads from the i-th on, with `seek` of the seeks done and the operands so far. */
  function ReadsFrom(d: Decoder, t: Template, i: nat, seek: nat, at: nat, ops: seq<Operand>): Option<(seq<Operand>, nat)>
    requires i <= |t.operands| && seek <= |t.seeks|
    decreases |t.operands| - i + |t.seeks| - seek
  {
    if seek < |t.seeks| && (i == |t.operands| || t.seeks[seek].at == i) then
      var to :- TargetIn(ops, t.seeks[seek].slot);
      ReadsFrom(d, t, i, seek + 1, to, ops)
    else if i < |t.operands| then
      var (op, next) :- ReadAt(d, t.operands[i], at);
      ReadsFrom(d, t, i + 1, seek, next, ops + [op])
    else Some((ops, at))
  }

  datatype Decoded = Decoded(ops: seq<Operand>, next: nat, target: Option<nat>)

  /** What is left once the operands are there: the target of a branch, and the address of the next
      instruction, which must be one. */
  function Concluded(branch: Option<Byte>, ops: seq<Operand>, at: nat): Option<Decoded> {
    if branch.Some? then
      var t :- TargetIn(ops, branch.value);
      if at >= TWO_32 then None else Some(Decoded(ops, at, Some(t)))
    else if at >= TWO_32 then None
    else Some(Decoded(ops, at, None))
  }

  function DecodeAt(d: Decoder, pc: nat, t: Template): Option<Decoded> {
    var (ops, at) :- ReadsFrom(d, t, 0, 0, pc + 1, []);
    Concluded(t.branch, ops, at)
  }

  /** The plain decoder as it goes: the seeks due before a read, then the read. */
  method Decode(d: Decoder, pc: nat, t: Template) returns (r: Option<Decoded>)
    ensures r == DecodeAt(d, pc, t)
  {
    var at: nat, seek: nat, ops: seq<Operand> := pc + 1, 0, [];
    for i := 0 to |t.operands|
      invariant seek <= |t.seeks|
      invariant ReadsFrom(d, t, 0, 0, pc + 1, []) == ReadsFrom(d, t, i, seek, at, ops)
    {
      while seek < |t.seeks| && t.seeks[seek].at == i
        invariant seek <= |t.seeks|
        invariant ReadsFrom(d, t, 0, 0, pc + 1, []) == ReadsFrom(d, t, i, seek, at, ops)
      {
        var to := TargetIn(ops, t.seeks[seek].slot);
        if to.None? {
          return None;
        }
        at := to.value;
        seek := seek + 1;
      }
      var read := ReadAt(d, t.operands[i], at);
      if read.None? {
        return None;
      }
      at, ops := read.value.1, ops + [read.value.0];
    }
    while seek < |t.seeks|
      invariant seek <= |t.seeks|
      invariant ReadsFrom(d, t, 0, 0, pc + 1, []) == ReadsFrom(d, t, |t.operands|, seek, at, ops)
    {
      var to := TargetIn(ops, t.seeks[seek].slot);
      if to.None? {
        return None;
      }
      at := to.value;
      seek := seek + 1;
    }
    r := Concluded(t.branch, ops, at);
  }
}
