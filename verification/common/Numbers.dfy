/** Numbers of the interpreted language: the doubles, of which only those things are modelled that
    the code decides by itself. Finite numbers are reals; rounding is not modelled. */
module Numbers {
  import opened Basics

  /** The positive zero is `Finite(0.0)`. */
  datatype Number = NaN | Infinite(neg: bool) | MinusZero | Finite(r: real)

  const ZERO := Finite(0.0)
  const ONE := Finite(1.0)

  /** Both zeros count as zero. */
  predicate IsZero(n: Number) {
    n == ZERO || n == MinusZero
  }

  /** The numbers compare equal: no NaN does, and the zeros do. */
  predicate Equal(x: Number, y: Number) {
    x != NaN && (x == y || (IsZero(x) && IsZero(y)))
  }

  predicate Less(x: Number, y: Number) {
    match (x, y)
    case (NaN, _) => false
    case (_, NaN) => false
    case (Infinite(s), Infinite(t)) => s && !t
    case (Infinite(s), _) => s
    case (_, Infinite(t)) => !t
    case _ => Magnitude(x) < Magnitude(y)
  }

  function Magnitude(x: Number): real {
    if x.Finite? then x.r else 0.0
  }

  function Negated(x: Number): Number {
    match x
    case NaN => NaN
    case Infinite(s) => Infinite(!s)
    case MinusZero => ZERO
    case Finite(r) => if r == 0.0 then MinusZero else Finite(-r)
  }

  // ----- Thirty-two bit integers -----

  const TWO_32 := 0x1_0000_0000
  const TWO_31 := 0x8000_0000

  /** A 32-bit integer by its bits, read as an unsigned number. */
  type Word = u: int | 0 <= u < 0x1_0000_0000

  function Truncated(r: real): int {
    if r < 0.0 then -(-r).Floor else r.Floor
  }

  /** What a bitwise operator sees of a number. */
  function ToInt32(n: Number): Word {
    if n.Finite? then Truncated(n.r) % TWO_32 else 0
  }

  /** The number of a signed 32-bit integer. */
  function OfInt32(u: Word): Number {
    Finite((if u < TWO_31 then u else u - TWO_32) as real)
  }

  lemma Int32RoundTrip(u: Word)
    ensures ToInt32(OfInt32(u)) == u
  {
    var i: int := if u < TWO_31 then u else u - TWO_32;
    FloorOfInt(i);
    FloorOfInt(-i);
    assert Truncated(i as real) == i;
  }

  lemma FloorOfInt(i: int)
    ensures (i as real).Floor == i && -(i as real) == (-i) as real
  {
  }

  lemma Int32Equal(u: Word, v: Word)
    ensures Equal(OfInt32(u), OfInt32(v)) <==> u == v
  {
    if OfInt32(u) == OfInt32(v) {
      Int32RoundTrip(u);
      Int32RoundTrip(v);
    }
  }

  // ----- Bits -----

  /** Exclusive or, bit by bit. */
  function Xor(a: nat, b: nat): nat
    decreases a + b
  {
    if a == 0 && b == 0 then 0 else (if a % 2 == b % 2 then 0 else 1) + 2 * Xor(a / 2, b / 2)
  }

  /** Or, bit by bit. */
  function Or(a: nat, b: nat): nat
    decreases a + b
  {
    if a == 0 && b == 0 then 0 else (if a % 2 == 0 && b % 2 == 0 then 0 else 1) + 2 * Or(a / 2, b / 2)
  }

  lemma {:induction false} XorBits(a: nat, b: nat)
    ensures Xor(a, b) % 2 == (if a % 2 == b % 2 then 0 else 1) && Xor(a, b) / 2 == Xor(a / 2, b / 2)
  {
  }

  lemma {:induction false} XorCommutes(a: nat, b: nat)
    ensures Xor(a, b) == Xor(b, a)
    decreases a + b
  {
    if a != 0 || b != 0 {
      XorCommutes(a / 2, b / 2);
    }
  }

  lemma {:induction false} XorAssociates(a: nat, b: nat, c: nat)
    ensures Xor(Xor(a, b), c) == Xor(a, Xor(b, c))
    decreases a + b + c
  {
    if a != 0 || b != 0 || c != 0 {
      XorBits(a, b);
      XorBits(b, c);
      XorBits(Xor(a, b), c);
      XorBits(a, Xor(b, c));
      XorAssociates(a / 2, b / 2, c / 2);
    }
  }

  lemma {:induction false} XorZero(a: nat)
    ensures Xor(a, 0) == a == Xor(0, a)
  {
    if a != 0 {
      XorZero(a / 2);
    }
  }

  lemma {:induction false} XorSelf(a: nat)
    ensures Xor(a, a) == 0
  {
    if a != 0 {
      XorSelf(a / 2);
    }
  }

  lemma {:induction false} OrZero(a: nat)
    ensures Or(a, 0) == a == Or(0, a)
  {
    if a != 0 {
      OrZero(a / 2);
    }
  }

  /** Neither operator makes a number wider. */
  lemma {:induction false} BitsFit(a: nat, b: nat, k: nat)
    requires a < Power2(k) && b < Power2(k)
    ensures Xor(a, b) < Power2(k) && Or(a, b) < Power2(k)
    decreases k
  {
    if k > 0 {
      BitsFit(a / 2, b / 2, k - 1);
    }
  }

  lemma WordWidth()
    ensures Power2(32) == TWO_32
  {
    assert Power2(8) == 256;
    assert Power2(16) == 65536 by {
      assert Power2(12) == 4096;
    }
    assert Power2(24) == 16777216 by {
      assert Power2(20) == 1048576;
    }
    assert Power2(28) == 268435456;
  }

  function XorWords(a: Word, b: Word): Word {
    WordWidth();
    BitsFit(a, b, 32);
    Xor(a, b)
  }

  function OrWords(a: Word, b: Word): Word {
    WordWidth();
    BitsFit(a, b, 32);
    Or(a, b)
  }
}
