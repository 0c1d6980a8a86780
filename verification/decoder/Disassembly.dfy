/** Disassembly: from the entry, every instruction that control or a closure can get to is decoded
    once, and nothing else is. */
module Disassembly {
  import opened Basics
  import opened Decoding
  import opened Shapes

  /** The code, the templates of the handlers (some may not have been understood), and the numbering
      of handlers, which changes from one generation of the code to the next. */
  datatype View = View(decoder: Decoder, templates: seq<Option<Template>>, perms: seq<seq<nat>>, genOf: seq<Option<nat>>) {
    predicate Valid() {
      perms != [] && forall p :: 0 <= p < |genOf| && genOf[p].Some? ==> genOf[p].value < |perms|
    }
  }

  datatype Instr = Instr(pc: nat, handler: nat, ops: seq<Operand>, next: nat, target: Option<nat>)

  /** What is known of a code address. */
  datatype Mark = Unseen | Bad | Found(i: nat)

  function HandlerAt(v: View, p: nat): Option<nat>
    requires v.Valid() && p < |v.decoder.code|
  {
    var raw := v.decoder.code[p];
    var gen := if p < |v.genOf| && v.genOf[p].Some? then v.genOf[p].value else |v.perms| - 1;
    if 0 <= raw < |v.perms[gen]| then Some(v.perms[gen][raw]) else None
  }

  function TemplateOf(v: View, handler: nat): Option<Template> {
    if handler < |v.templates| then v.templates[handler] else None
  }

  function InstrAt(v: View, p: nat): Option<Instr>
    requires v.Valid() && p < |v.decoder.code|
  {
    var handler :- HandlerAt(v, p);
    var t :- TemplateOf(v, handler);
    var d :- FastDecodeAt(v.decoder, p, ShapeOf(t));
    Some(Instr(p, handler, d.ops, d.next, d.target))
  }

  function Linked(ops: seq<Operand>, slots: seq<Byte>): seq<nat> {
    if slots == [] then []
    else (match TargetIn(ops, slots[0]) case Some(t) => [t] case None => []) + Linked(ops, slots[1..])
  }

  /** Where an instruction can send control: the closures it makes, its jump targets, the target of its
      branch, and the next instruction, in the order in which they are noted. */
  function Successors(t: Template, ins: Instr): seq<nat> {
    Linked(ins.ops, t.closures + t.targets) + (if ins.target.Some? then [ins.target.value] else [])
    + (if t.falls then [ins.next] else [])
  }

  function SuccessorsAt(v: View, p: nat): seq<nat>
    requires v.Valid() && p < |v.decoder.code|
  {
    match InstrAt(v, p)
    case Some(ins) => Successors(TemplateOf(v, ins.handler).value, ins)
    case None => []
  }

  /** The functions that the instruction at p makes closures of. */
  function ClosuresAt(v: View, p: nat): seq<nat>
    requires v.Valid() && p < |v.decoder.code|
  {
    match InstrAt(v, p)
    case Some(ins) => Linked(ins.ops, TemplateOf(v, ins.handler).value.closures)
    case None => []
  }

  // ----- Reachability -----

  ghost predicate Link(v: View, p: nat, q: nat)
    requires v.Valid()
  {
    p < |v.decoder.code| && q in SuccessorsAt(v, p)
  }

  ghost predicate Path(v: View, path: seq<nat>)
    requires v.Valid()
  {
    path != [] && forall k :: 0 <= k < |path| - 1 ==> Link(v, path[k], path[k + 1])
  }

  ghost predicate Reachable(v: View, entry: nat, p: nat)
    requires v.Valid()
  {
    exists path :: Path(v, path) && path[0] == entry && path[|path| - 1] == p
  }

  lemma ReachesOn(v: View, entry: nat, p: nat, q: nat)
    requires v.Valid() && Reachable(v, entry, p) && Link(v, p, q)
    ensures Reachable(v, entry, q)
  {
    var path :| Path(v, path) && path[0] == entry && path[|path| - 1] == p;
    var more := path + [q];
    forall k | 0 <= k < |more| - 1 ensures Link(v, more[k], more[k + 1]) {
    }
    assert Path(v, more) && more[|more| - 1] == q;
  }

  // ----- The worklist -----

  datatype Progress = Progress(index: seq<Mark>, instrs: seq<Instr>, entries: seq<nat>, work: seq<nat>)

  ghost predicate Sound(v: View, entry: nat, s: Progress)
    requires v.Valid()
  {
    && |s.index| == |v.decoder.code|
    && (forall k :: 0 <= k < |s.work| ==> Reachable(v, entry, s.work[k]))
    && (forall p :: 0 <= p < |s.index| ==> MarkSound(v, entry, s, p))
    && (forall i :: 0 <= i < |s.instrs| ==> s.instrs[i].pc < |s.index| && s.index[s.instrs[i].pc] == Found(i))
  }

  /** The entries are that of the program and those of the closures made anywhere. */
  ghost predicate EntriesSound(v: View, entry: nat, s: Progress)
    requires v.Valid() && |s.index| == |v.decoder.code|
  {
    forall e :: e in s.entries <==> e == entry || MadeSomewhere(v, s.index, e)
  }

  ghost predicate MadeSomewhere(v: View, index: seq<Mark>, e: nat)
    requires v.Valid() && |index| == |v.decoder.code|
  {
    exists p: nat :: p < |index| && index[p].Found? && e in ClosuresAt(v, p)
  }

  lemma TurnEntries(v: View, entry: nat, s: Progress)
    requires v.Valid() && |s.index| == |v.decoder.code| && EntriesSound(v, entry, s) && s.work != []
    ensures |Turn(v, s).index| == |s.index| && EntriesSound(v, entry, Turn(v, s))
  {
    hide InstrAt, ClosuresAt, SuccessorsAt;
    var r := Turn(v, s);
    var p := s.work[|s.work| - 1];
    forall e | MadeSomewhere(v, s.index, e) ensures MadeSomewhere(v, r.index, e) {
      var q: nat :| q < |s.index| && s.index[q].Found? && e in ClosuresAt(v, q);
      assert r.index[q].Found?;
    }
    forall e | MadeSomewhere(v, r.index, e) && !MadeSomewhere(v, s.index, e) ensures e in r.entries {
      var q: nat :| q < |r.index| && r.index[q].Found? && e in ClosuresAt(v, q);
      assert !s.index[q].Found?;
    }
    forall e | e in r.entries && e !in s.entries ensures MadeSomewhere(v, r.index, e) {
      assert r.index[p].Found? && e in ClosuresAt(v, p);
    }
  }

  /** A mark says what decoding at p gave, and p is reachable. */
  ghost predicate MarkSound(v: View, entry: nat, s: Progress, p: nat)
    requires v.Valid() && p < |s.index| == |v.decoder.code|
  {
    match s.index[p]
    case Unseen => true
    case Bad => InstrAt(v, p).None? && Reachable(v, entry, p)
    case Found(i) => i < |s.instrs| && InstrAt(v, p) == Some(s.instrs[i]) && Reachable(v, entry, p)
  }

  /** Where p leads is marked, or still to be looked at, or outside the code. */
  ghost predicate LeadsOn(v: View, s: Progress, p: nat)
    requires v.Valid() && p < |s.index| == |v.decoder.code|
  {
    s.index[p].Found? ==> forall q :: q in SuccessorsAt(v, p) ==> Noted(s, q)
  }

  predicate Noted(s: Progress, q: nat) {
    q in s.work || q >= |s.index| || !s.index[q].Unseen?
  }

  ghost predicate Complete(v: View, entry: nat, s: Progress)
    requires v.Valid() && |s.index| == |v.decoder.code|
  {
    Noted(s, entry) && forall p :: 0 <= p < |s.index| ==> LeadsOn(v, s, p)
  }

  function UnseenCount(index: seq<Mark>): nat {
    if index == [] then 0 else (if index[0].Unseen? then 1 else 0) + UnseenCount(index[1..])
  }

  lemma {:induction false} UnseenFalls(index: seq<Mark>, p: nat, m: Mark)
    requires p < |index| && index[p].Unseen? && !m.Unseen?
    ensures UnseenCount(index[p := m]) == UnseenCount(index) - 1
  {
    if p == 0 {
      assert index[p := m][1..] == index[1..];
    } else {
      UnseenFalls(index[1..], p - 1, m);
      assert index[p := m][1..] == index[1..][p - 1 := m];
    }
  }

  /** One address is taken from the stack: skipped, marked as bad, or decoded, which notes its successors. */
  function Turn(v: View, s: Progress): (r: Progress)
    requires v.Valid() && s.work != [] && |s.index| == |v.decoder.code|
  {
    var n := |s.work| - 1;
    var p := s.work[n];
    var rest := s.work[..n];
    if p >= |s.index| || !s.index[p].Unseen? then s.(work := rest)
    else
      match InstrAt(v, p)
      case None => Progress(s.index[p := Bad], s.instrs, s.entries, rest)
      case Some(ins) =>
        Progress(s.index[p := Found(|s.instrs|)], s.instrs + [ins], s.entries + ClosuresAt(v, p), rest + SuccessorsAt(v, p))
  }

  lemma TurnSound(v: View, entry: nat, s: Progress)
    requires v.Valid() && Sound(v, entry, s) && s.work != []
    ensures Sound(v, entry, Turn(v, s))
  {
    hide InstrAt, SuccessorsAt, Reachable;
    var n, r := |s.work| - 1, Turn(v, s);
    var p := s.work[n];
    if p < |s.index| && s.index[p].Unseen? {
      DecodedHere(v, p);
      forall k | 0 <= k < |r.work| ensures Reachable(v, entry, r.work[k]) {
        if k >= n {
          assert r.work[k] in SuccessorsAt(v, p);
          ReachesOn(v, entry, p, r.work[k]);
        }
      }
      forall q | 0 <= q < |r.index| ensures MarkSound(v, entry, r, q) {
        assert MarkSound(v, entry, s, q);
      }
      forall i | 0 <= i < |r.instrs| ensures r.instrs[i].pc < |r.index| && r.index[r.instrs[i].pc] == Found(i) {
        if i < |s.instrs| {
          assert s.index[s.instrs[i].pc] == Found(i);
        }
      }
    } else {
      forall q | 0 <= q < |r.index| ensures MarkSound(v, entry, r, q) {
        assert MarkSound(v, entry, s, q);
      }
    }
  }

  lemma DecodedHere(v: View, p: nat)
    requires v.Valid() && p < |v.decoder.code|
    ensures InstrAt(v, p).Some? ==> InstrAt(v, p).value.pc == p
  {
  }

  lemma TurnComplete(v: View, entry: nat, s: Progress)
    requires v.Valid() && |s.index| == |v.decoder.code| && Complete(v, entry, s) && s.work != []
    ensures |Turn(v, s).index| == |s.index| && Complete(v, entry, Turn(v, s))
  {
    hide InstrAt, SuccessorsAt;
    var n, r := |s.work| - 1, Turn(v, s);
    assert s.work == s.work[..n] + [s.work[n]];
    forall q: nat | Noted(s, q) ensures Noted(r, q) {
    }
    forall p | 0 <= p < |r.index| ensures LeadsOn(v, r, p) {
      assert LeadsOn(v, s, p);
    }
  }

  lemma {:induction false} ReachedIsMarked(v: View, entry: nat, s: Progress, path: seq<nat>)
    requires v.Valid() && |s.index| == |v.decoder.code| && Complete(v, entry, s) && s.work == [] && Sound(v, entry, s)
    requires Path(v, path) && path[0] == entry
    ensures var p := path[|path| - 1]; p < |s.index| ==> !s.index[p].Unseen?
    decreases |path|
  {
    hide InstrAt, Reachable;
    var n := |path| - 1;
    if n > 0 {
      var shorter := path[..n];
      forall k | 0 <= k < |shorter| - 1 ensures Link(v, shorter[k], shorter[k + 1]) {
        assert Link(v, path[k], path[k + 1]);
      }
      ReachedIsMarked(v, entry, s, shorter);
      var p := path[n - 1];
      assert Link(v, p, path[n]);
      assert MarkSound(v, entry, s, p) && LeadsOn(v, s, p);
      if InstrAt(v, p).None? {
        NoneLeads(v, p);
      }
    }
  }

  lemma NoneLeads(v: View, p: nat)
    requires v.Valid() && p < |v.decoder.code| && InstrAt(v, p).None?
    ensures SuccessorsAt(v, p) == []
  {
  }

  /** A mark says what decoding at p gave. */
  predicate Marks(v: View, index: seq<Mark>, instrs: seq<Instr>, p: nat)
    requires v.Valid() && p < |index| == |v.decoder.code|
  {
    match index[p]
    case Unseen => true
    case Bad => InstrAt(v, p).None?
    case Found(i) => i < |instrs| && InstrAt(v, p) == Some(instrs[i])
  }

  /** Marks exactly the addresses that are reachable from the entry, and lists every instruction found
      there exactly once. */
  method Disassemble(v: View, entry: nat) returns (index: seq<Mark>, instrs: seq<Instr>, entries: seq<nat>)
    requires v.Valid()
    ensures |index| == |v.decoder.code|
    ensures forall p: nat :: p < |index| ==> (index[p].Unseen? <==> !Reachable(v, entry, p))
    ensures forall p: nat :: p < |index| ==> Marks(v, index, instrs, p)
    ensures forall i :: 0 <= i < |instrs| ==> instrs[i].pc < |index| && index[instrs[i].pc] == Found(i)
    ensures forall e :: e in entries <==> e == entry || MadeSomewhere(v, index, e)
  {
    hide InstrAt, SuccessorsAt, Reachable, Turn;
    var s := Progress(seq(|v.decoder.code|, _ => Unseen), [], [entry], [entry]);
    EntryReachable(v, entry);
    while s.work != []
      invariant Sound(v, entry, s) && Complete(v, entry, s) && EntriesSound(v, entry, s)
      decreases UnseenCount(s.index), |s.work|
    {
      TurnSound(v, entry, s);
      TurnComplete(v, entry, s);
      TurnEntries(v, entry, s);
      TurnFalls(v, s);
      s := Turn(v, s);
    }
    index, instrs, entries := s.index, s.instrs, s.entries;
    forall p: nat | p < |index| ensures index[p].Unseen? <==> !Reachable(v, entry, p) {
      assert MarkSound(v, entry, s, p);
      if Reachable(v, entry, p) {
        PathTo(v, entry, s, p);
      }
    }
    forall p: nat | p < |index| ensures Marks(v, index, instrs, p) {
      assert MarkSound(v, entry, s, p);
    }
  }

  lemma PathTo(v: View, entry: nat, s: Progress, p: nat)
    requires v.Valid() && |s.index| == |v.decoder.code| && Complete(v, entry, s) && s.work == [] && Sound(v, entry, s)
    requires p < |s.index| && Reachable(v, entry, p)
    ensures !s.index[p].Unseen?
  {
    var path :| Path(v, path) && path[0] == entry && path[|path| - 1] == p;
    ReachedIsMarked(v, entry, s, path);
  }

  lemma EntryReachable(v: View, entry: nat)
    requires v.Valid()
    ensures Reachable(v, entry, entry)
  {
    assert Path(v, [entry]) && [entry][0] == entry;
  }

  lemma TurnFalls(v: View, s: Progress)
    requires v.Valid() && s.work != [] && |s.index| == |v.decoder.code|
    ensures var r := Turn(v, s);
            UnseenCount(r.index) < UnseenCount(s.index) || (UnseenCount(r.index) == UnseenCount(s.index) && |r.work| < |s.work|)
  {
    hide InstrAt, SuccessorsAt;
    var p := s.work[|s.work| - 1];
    if p < |s.index| && s.index[p].Unseen? {
      UnseenFalls(s.index, p, if InstrAt(v, p).Some? then Found(|s.instrs|) else Bad);
    }
  }
}
