/** What is known of a value without running the function: a constant, an argument as it came, or an
    exclusive or of the 32-bit integers of some arguments and a constant. */
module AbstractValues {
  import opened Numbers
  import opened Basics
  import opened Bytecode
  import opened Values

  datatype Av = Known(v: Val) | Arg(i: nat) | Mixed(atoms: seq<nat>, c: Word) | Unknown

  /** Missing arguments are undefined. */
  function ArgAt(args: seq<Val>, i: nat): Val {
    if i < |args| then args[i] else Undef
  }

  predicate AllScalar(args: seq<Val>) {
    forall i :: 0 <= i < |args| ==> args[i].Scalar()
  }

  function MixOf<X>(o: Outside<X>, args: seq<Val>, atoms: seq<nat>): Word
    requires AllScalar(args)
  {
    if atoms == [] then 0 else XorWords(WordOf(o, ArgAt(args, atoms[0])), MixOf(o, args, atoms[1..]))
  }

  ghost predicate Denotes<X>(o: Outside<X>, args: seq<Val>, a: Av, v: Val)
    requires AllScalar(args)
  {
    match a
    case Known(c) => v == c
    case Arg(i) => v == ArgAt(args, i)
    case Mixed(atoms, c) => v == Numeric(OfInt32(XorWords(MixOf(o, args, atoms), c)))
    case Unknown => true
  }

  // ----- Atoms -----

  /** Merges two ascending lists; what is in both cancels out. */
  function XorAtoms(a: seq<nat>, b: seq<nat>): seq<nat> {
    if a == [] then b
    else if b == [] then a
    else if a[0] == b[0] then XorAtoms(a[1..], b[1..])
    else if a[0] < b[0] then [a[0]] + XorAtoms(a[1..], b)
    else [b[0]] + XorAtoms(a, b[1..])
  }

  method XorAtomsLoop(a: seq<nat>, b: seq<nat>) returns (out: seq<nat>)
    ensures out == XorAtoms(a, b)
  {
    out := [];
    var i, j := 0, 0;
    assert out + XorAtoms(a[0..], b[0..]) == XorAtoms(a, b) by {
      assert a[0..] == a && b[0..] == b;
    }
    while i < |a| || j < |b|
      invariant i <= |a| && j <= |b|
      invariant out + XorAtoms(a[i..], b[j..]) == XorAtoms(a, b)
      decreases |a| - i + |b| - j
    {
      var ra, rb, was := a[i..], b[j..], out;
      assert i < |a| ==> ra[1..] == a[i + 1..];
      assert j < |b| ==> rb[1..] == b[j + 1..];
      if i < |a| && j < |b| && a[i] == b[j] {
        i, j := i + 1, j + 1;
      } else if i < |a| && (j == |b| || a[i] < b[j]) {
        out := out + [a[i]];
        TakesFirst(ra, rb);
        assert was + ([a[i]] + XorAtoms(ra[1..], rb)) == out + XorAtoms(ra[1..], rb);
        i := i + 1;
      } else {
        out := out + [b[j]];
        TakesFirst(rb, ra);
        assert was + ([b[j]] + XorAtoms(ra, rb[1..])) == out + XorAtoms(ra, rb[1..]);
        j := j + 1;
      }
    }
    assert a[i..] == [] && b[j..] == [] && out + [] == out;
  }

  lemma TakesFirst(a: seq<nat>, b: seq<nat>)
    requires a != [] && (b == [] || a[0] < b[0])
    ensures XorAtoms(a, b) == [a[0]] + XorAtoms(a[1..], b)
    ensures XorAtoms(b, a) == [a[0]] + XorAtoms(b, a[1..])
  {
    assert a == [a[0]] + a[1..];
    if b == [] && a[1..] != [] {
      assert XorAtoms(a[1..], b) == a[1..] == XorAtoms(b, a[1..]);
    }
  }

  predicate Ascending(s: seq<nat>) {
    forall i, j :: 0 <= i < j < |s| ==> s[i] < s[j]
  }

  predicate AllAbove(s: seq<nat>, low: nat) {
    forall i :: 0 <= i < |s| ==> low < s[i]
  }

  /** Merged atoms ascend, so an atom that stays stands there once. */
  lemma {:induction false} XorAtomsAscend(a: seq<nat>, b: seq<nat>, low: nat)
    requires Ascending(a) && Ascending(b)
    ensures Ascending(XorAtoms(a, b))
    ensures AllAbove(a, low) && AllAbove(b, low) ==> AllAbove(XorAtoms(a, b), low)
    decreases |a| + |b|
  {
    if a != [] && b != [] {
      if a[0] == b[0] {
        XorAtomsAscend(a[1..], b[1..], low);
      } else if a[0] < b[0] {
        XorAtomsAscend(a[1..], b, a[0]);
        XorAtomsAscend(a[1..], b, low);
      } else {
        XorAtomsAscend(a, b[1..], b[0]);
        XorAtomsAscend(a, b[1..], low);
      }
    }
  }

  lemma XorWordLaws(a: Word, b: Word, c: Word)
    ensures XorWords(a, b) == XorWords(b, a) && XorWords(XorWords(a, b), c) == XorWords(a, XorWords(b, c))
    ensures XorWords(a, a) == 0 && XorWords(a, 0) == a == XorWords(0, a)
  {
    XorCommutes(a, b);
    XorAssociates(a, b, c);
    XorSelf(a);
    XorZero(a);
  }

  /** Merging atoms is exclusive or. */
  lemma {:induction false} XorAtomsMix<X>(o: Outside<X>, args: seq<Val>, a: seq<nat>, b: seq<nat>)
    requires AllScalar(args)
    ensures MixOf(o, args, XorAtoms(a, b)) == XorWords(MixOf(o, args, a), MixOf(o, args, b))
    decreases |a| + |b|
  {
    hide XorWords, WordOf;
    var ma, mb := MixOf(o, args, a), MixOf(o, args, b);
    if a == [] {
      XorWordLaws(mb, 0, 0);
    } else if b == [] {
      XorWordLaws(ma, 0, 0);
    } else {
      var x, y := WordOf(o, ArgAt(args, a[0])), WordOf(o, ArgAt(args, b[0]));
      var ra, rb := MixOf(o, args, a[1..]), MixOf(o, args, b[1..]);
      if a[0] == b[0] {
        XorAtomsMix(o, args, a[1..], b[1..]);
        Cancels(x, ra, rb);
      } else if a[0] < b[0] {
        XorAtomsMix(o, args, a[1..], b);
        XorWordLaws(x, ra, mb);
        MixFirst(o, args, a[0], XorAtoms(a[1..], b));
      } else {
        XorAtomsMix(o, args, a, b[1..]);
        XorWordLaws(y, ma, rb);
        XorWordLaws(ma, y, rb);
        MixFirst(o, args, b[0], XorAtoms(a, b[1..]));
      }
    }
  }

  lemma MixFirst<X>(o: Outside<X>, args: seq<Val>, i: nat, atoms: seq<nat>)
    requires AllScalar(args)
    ensures MixOf(o, args, [i] + atoms) == XorWords(WordOf(o, ArgAt(args, i)), MixOf(o, args, atoms))
  {
    assert ([i] + atoms)[1..] == atoms;
  }

  lemma Cancels(x: Word, a: Word, b: Word)
    ensures XorWords(XorWords(x, a), XorWords(x, b)) == XorWords(a, b)
  {
    hide XorWords;
    XorWordLaws(x, a, XorWords(x, b));
    XorWordLaws(a, x, b);
    XorWordLaws(x, XorWords(a, x), b);
    XorWordLaws(x, x, a);
    XorWordLaws(a, x, x);
    XorWordLaws(x, a, x);
    assert XorWords(x, XorWords(a, XorWords(x, b))) == XorWords(x, XorWords(XorWords(a, x), b));
    assert XorWords(x, XorWords(a, x)) == a by {
      assert XorWords(a, x) == XorWords(x, a);
    }
  }

  // ----- Operators -----

  /** What is known of whether a value is truthy, when it is assumed whether the first argument is. */
  function TruthOf(a: Av, firstTruthy: bool): Option<bool> {
    match a
    case Known(v) => Some(Truthy(v))
    case Arg(i) => if i == 0 then Some(firstTruthy) else None
    case _ => None
  }

  function NumOf(a: Av): Option<Number> {
    if a.Known? && a.v.Numeric? then Some(a.v.n) else None
  }

  function IntOf(a: Av): Option<(seq<nat>, Word)> {
    match a
    case Arg(i) => Some(([i], 0))
    case Mixed(atoms, c) => Some((atoms, c))
    case Known(v) => if v.Numeric? then Some(([], ToInt32(v.n))) else None
    case Unknown => None
  }

  function Mix(atoms: seq<nat>, c: Word): Av {
    if atoms == [] then Known(Numeric(OfInt32(c))) else Mixed(atoms, c)
  }

  function AvBinary<X>(o: Outside<X>, op: BinaryOp, a: Av, b: Av): Av {
    if NumOf(a).Some? && NumOf(b).Some? then
      (match OnNumbers(o, op, NumOf(a).value, NumOf(b).value)
       case Some(v) => Known(v)
       case None => Unknown)
    else if op.BitwiseOr? then
      if IntOf(a).Some? && NumOf(b).Some? && IsZero(NumOf(b).value) then Mixed(IntOf(a).value.0, IntOf(a).value.1)
      else if IntOf(b).Some? && NumOf(a).Some? && IsZero(NumOf(a).value) then Mixed(IntOf(b).value.0, IntOf(b).value.1)
      else Unknown
    else if op.BitwiseXor? then
      if IntOf(a).Some? && IntOf(b).Some? then
        Mix(XorAtoms(IntOf(a).value.0, IntOf(b).value.0), XorWords(IntOf(a).value.1, IntOf(b).value.1))
      else Unknown
    else if (op.StrictEquality? || op.StrictInequality?) && a.Mixed? && b.Mixed? && a.atoms == b.atoms then
      Known(Bool((a.c == b.c) == op.StrictEquality?))
    else Unknown
  }

  function AvUnary(un: UnaryOp, a: Av, firstTruthy: bool): Av {
    if un.LogicalNot? then
      (match TruthOf(a, firstTruthy)
       case Some(t) => Known(Bool(!t))
       case None => Unknown)
    else if un.Negation? && NumOf(a).Some? then Known(Numeric(Negated(NumOf(a).value)))
    else Unknown
  }

  /** Atoms ascend, so that no argument stands twice in a mix. */
  predicate Tidy(a: Av) {
    a.Mixed? ==> Ascending(a.atoms)
  }

  lemma AvBinaryTidy<X>(o: Outside<X>, op: BinaryOp, a: Av, b: Av)
    requires Tidy(a) && Tidy(b)
    ensures Tidy(AvBinary(o, op, a, b))
  {
    hide OnNumbers, XorAtoms, XorWords;
    if op.BitwiseXor? && IntOf(a).Some? && IntOf(b).Some? {
      XorAtomsAscend(IntOf(a).value.0, IntOf(b).value.0, 0);
    }
  }

  // ----- Soundness -----

  lemma IntOfSound<X>(o: Outside<X>, args: seq<Val>, a: Av, v: Val)
    requires AllScalar(args) && Denotes(o, args, a, v) && IntOf(a).Some?
    ensures v.Scalar() && WordOf(o, v) == XorWords(MixOf(o, args, IntOf(a).value.0), IntOf(a).value.1)
  {
    hide XorWords;
    match a
    case Arg(i) =>
      assert [i][1..] == [];
      assert MixOf(o, args, [i]) == XorWords(WordOf(o, v), MixOf(o, args, []));
      XorWordLaws(WordOf(o, v), 0, 0);
    case Mixed(atoms, c) => Int32RoundTrip(XorWords(MixOf(o, args, atoms), c));
    case Known(c) => XorWordLaws(WordOf(o, v), 0, 0);
  }

  /** An operator on values denoted by a and b, if it yields at all, yields a value denoted by what
      the abstract operator gives. */
  lemma AvBinarySound<X>(o: Outside<X>, args: seq<Val>, op: BinaryOp, a: Av, b: Av, l: Val, r: Val, f: Frame<X>)
    requires AllScalar(args) && Denotes(o, args, a, l) && Denotes(o, args, b, r) && BinaryIn(o, op, l, r, f).Yields?
    ensures Denotes(o, args, AvBinary(o, op, a, b), BinaryIn(o, op, l, r, f).r)
  {
    if NumOf(a).Some? && NumOf(b).Some? {
    } else if op.BitwiseOr? {
      OrSound(o, args, a, b, l, r, f);
    } else if op.BitwiseXor? && IntOf(a).Some? && IntOf(b).Some? {
      XorSound(o, args, a, b, l, r, f);
    } else if (op.StrictEquality? || op.StrictInequality?) && a.Mixed? && b.Mixed? && a.atoms == b.atoms {
      EqualSound(o, args, op, a, b, l, r, f);
    }
  }

  lemma OrSound<X>(o: Outside<X>, args: seq<Val>, a: Av, b: Av, l: Val, r: Val, f: Frame<X>)
    requires AllScalar(args) && Denotes(o, args, a, l) && Denotes(o, args, b, r)
    requires NumOf(a).None? || NumOf(b).None?
    ensures BinaryIn(o, BitwiseOr, l, r, f).Yields? ==>
              Denotes(o, args, AvBinary(o, BitwiseOr, a, b), BinaryIn(o, BitwiseOr, l, r, f).r)
  {
    hide XorWords, OrWords, MixOf;
    if IntOf(a).Some? && NumOf(b).Some? && IsZero(NumOf(b).value) {
      IntOfSound(o, args, a, l);
      ZeroWord(NumOf(b).value);
      OrWithZero(WordOf(o, l));
    } else if IntOf(b).Some? && NumOf(a).Some? && IsZero(NumOf(a).value) {
      IntOfSound(o, args, b, r);
      ZeroWord(NumOf(a).value);
      OrWithZero(WordOf(o, r));
    }
  }

  lemma ZeroWord(n: Number)
    requires IsZero(n)
    ensures ToInt32(n) == 0
  {
  }

  lemma OrWithZero(a: Word)
    ensures OrWords(a, 0) == a == OrWords(0, a)
  {
    OrZero(a);
  }

  lemma XorSound<X>(o: Outside<X>, args: seq<Val>, a: Av, b: Av, l: Val, r: Val, f: Frame<X>)
    requires AllScalar(args) && Denotes(o, args, a, l) && Denotes(o, args, b, r)
    requires NumOf(a).None? || NumOf(b).None?
    requires IntOf(a).Some? && IntOf(b).Some?
    ensures BinaryIn(o, BitwiseXor, l, r, f).Yields?
    ensures Denotes(o, args, AvBinary(o, BitwiseXor, a, b), BinaryIn(o, BitwiseXor, l, r, f).r)
  {
    hide XorWords, XorAtoms;
    IntOfSound(o, args, a, l);
    IntOfSound(o, args, b, r);
    var (at, ac) := IntOf(a).value;
    var (bt, bc) := IntOf(b).value;
    XorAtomsMix(o, args, at, bt);
    Regroups(MixOf(o, args, at), ac, MixOf(o, args, bt), bc);
    XorWordLaws(XorWords(ac, bc), 0, 0);
  }

  lemma Regroups(a: Word, c: Word, b: Word, d: Word)
    ensures XorWords(XorWords(a, c), XorWords(b, d)) == XorWords(XorWords(a, b), XorWords(c, d))
  {
    hide XorWords;
    XorWordLaws(a, c, XorWords(b, d));
    XorWordLaws(c, b, d);
    XorWordLaws(b, c, d);
    XorWordLaws(a, b, XorWords(c, d));
  }

  lemma EqualSound<X>(o: Outside<X>, args: seq<Val>, op: BinaryOp, a: Av, b: Av, l: Val, r: Val, f: Frame<X>)
    requires AllScalar(args) && Denotes(o, args, a, l) && Denotes(o, args, b, r)
    requires (op.StrictEquality? || op.StrictInequality?) && a.Mixed? && b.Mixed? && a.atoms == b.atoms
    ensures BinaryIn(o, op, l, r, f).Yields?
    ensures Denotes(o, args, AvBinary(o, op, a, b), BinaryIn(o, op, l, r, f).r)
  {
    hide XorWords;
    var m := MixOf(o, args, a.atoms);
    Int32Equal(XorWords(m, a.c), XorWords(m, b.c));
    XorInjective(m, a.c, b.c);
  }

  lemma XorInjective(m: Word, c: Word, d: Word)
    ensures XorWords(m, c) == XorWords(m, d) <==> c == d
  {
    hide XorWords;
    XorWordLaws(m, m, c);
    XorWordLaws(m, m, d);
    XorWordLaws(c, 0, 0);
    XorWordLaws(d, 0, 0);
  }

  lemma AvUnarySound<X>(o: Outside<X>, args: seq<Val>, un: UnaryOp, a: Av, v: Val, firstTruthy: bool, f: Frame<X>)
    requires AllScalar(args) && Denotes(o, args, a, v) && UnaryIn(o, un, v, f).Yields?
    requires firstTruthy == Truthy(ArgAt(args, 0))
    ensures Denotes(o, args, AvUnary(un, a, firstTruthy), UnaryIn(o, un, v, f).r)
  {
  }
}
