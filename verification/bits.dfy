/**
 * Unsigned machine integers and the bitwise operators the geometry decoder
 * applies to them. C's `&`, `|` and `^` are defined here bit by bit over the
 * low `width` bits of two naturals, so that the arithmetic meaning of each use
 * in the decoder (masking, disjoint or-ing, sign flipping) is a lemma proved
 * about that definition rather than an assumption.
 */
module Bits {

  /** 2 to the power k. */
  function Pow2(k: nat): (r: nat)
    ensures r >= 1
  {
    if k == 0 then 1 else 2 * Pow2(k - 1)
  }

  /** A C `guint32`. */
  type uint32 = x: int | 0 <= x < 0x1_0000_0000

  /** True when x lies in the range of a C `gint32`. */
  predicate IsInt32(x: int) {
    -0x8000_0000 <= x < 0x8000_0000
  }

  /** A C `gint32`. */
  type int32 = x: int | IsInt32(x)

  /** Conversion of any C integer value to `guint32`: reduction modulo 2^32. */
  function ToUint32(x: int): uint32 {
    x % 0x1_0000_0000
  }

  /** Two's-complement reinterpretation of a `guint32` bit pattern as `gint32`. */
  function ToInt32(x: uint32): (r: int)
    ensures IsInt32(r)
  {
    if x < 0x8000_0000 then x else x - 0x1_0000_0000
  }

  datatype BitOp = And | Or | Xor

  /** The truth table of one bitwise operator on a single bit. */
  function Bit(op: BitOp, x: bool, y: bool): bool {
    match op
    case And => x && y
    case Or => x || y
    case Xor => x != y
  }

  /**
   * `a op b` on naturals, least significant bit first, until both operands
   * are exhausted. For operands below 2^k the result is below 2^k (Bounded),
   * so on `guint32` operands this is the C operator.
   */
  function Apply(op: BitOp, a: nat, b: nat): nat
    decreases a + b
  {
    if a == 0 && b == 0 then 0
    else (if Bit(op, a % 2 == 1, b % 2 == 1) then 1 else 0) + 2 * Apply(op, a / 2, b / 2)
  }

  /** The low k bits of a, read off one bit at a time. */
  function LowBits(a: nat, k: nat): nat
    decreases k
  {
    if k == 0 then 0 else a % 2 + 2 * LowBits(a / 2, k - 1)
  }

  /** `a >> k` on an unbounded natural: k halvings. */
  function ShiftRight(a: nat, k: nat): nat
    decreases k
  {
    if k == 0 then a else ShiftRight(a / 2, k - 1)
  }

  /** `b << k` on an unbounded natural: k doublings. */
  function ShiftLeft(b: nat, k: nat): nat
    decreases k
  {
    if k == 0 then b else 2 * ShiftLeft(b, k - 1)
  }

  lemma {:induction false} Pow2Add(a: nat, b: nat)
    ensures Pow2(a + b) == Pow2(a) * Pow2(b)
    decreases a
  {
    if a > 0 {
      Pow2Add(a - 1, b);
    }
  }

  lemma Pow2Of32()
    ensures Pow2(32) == 0x1_0000_0000
  {
    assert Pow2(8) == 256;
    Pow2Add(8, 8);
    Pow2Add(16, 16);
  }

  /** C's `&`, `|` and `^` on two `guint32` operands. */
  function Op32(op: BitOp, a: uint32, b: uint32): uint32 {
    Pow2Of32();
    Bounded(op, a, b, 32);
    Apply(op, a, b)
  }

  /** No bit at or above position k is set when neither operand has one. */
  lemma {:induction false} Bounded(op: BitOp, a: nat, b: nat, k: nat)
    requires a < Pow2(k) && b < Pow2(k)
    ensures Apply(op, a, b) < Pow2(k)
    decreases k
  {
    if k > 0 && !(a == 0 && b == 0) {
      Bounded(op, a / 2, b / 2, k - 1);
    }
  }

  lemma {:induction false} Commutes(op: BitOp, a: nat, b: nat)
    ensures Apply(op, a, b) == Apply(op, b, a)
    decreases a + b
  {
    if !(a == 0 && b == 0) {
      Commutes(op, a / 2, b / 2);
    }
  }

  /** Or-ing or xor-ing with zero leaves a value unchanged. */
  lemma {:induction false} ZeroIsIdentity(op: BitOp, a: nat)
    requires op != And
    ensures Apply(op, a, 0) == a
    decreases a
  {
    if a > 0 {
      ZeroIsIdentity(op, a / 2);
    }
  }

  /** And-ing with zero clears every bit. */
  lemma {:induction false} AndZero(a: nat)
    ensures Apply(And, a, 0) == 0
    decreases a
  {
    if a > 0 {
      AndZero(a / 2);
    }
  }

  /** Xor with the all-ones mask of width k is the one's complement within that width. */
  lemma {:induction false} XorAllOnes(a: nat, k: nat)
    requires a < Pow2(k)
    ensures Apply(Xor, a, Pow2(k) - 1) == Pow2(k) - 1 - a
    decreases k
  {
    if k > 0 {
      var half := Pow2(k - 1);
      assert (Pow2(k) - 1) / 2 == half - 1 && (Pow2(k) - 1) % 2 == 1;
      XorAllOnes(a / 2, k - 1);
    }
  }

  /** And-ing with the mask 2^k - 1 keeps exactly the low k bits. */
  lemma {:induction false} AndLowMask(a: nat, k: nat)
    ensures Apply(And, a, Pow2(k) - 1) == LowBits(a, k)
    decreases k
  {
    if k == 0 {
      AndZero(a);
    } else {
      var half := Pow2(k - 1);
      assert (Pow2(k) - 1) / 2 == half - 1 && (Pow2(k) - 1) % 2 == 1;
      AndLowMask(a / 2, k - 1);
    }
  }

  /** Or-ing a value below 2^k with a value shifted left by k adds them: the bits are disjoint. */
  lemma {:induction false} OrDisjoint(a: nat, b: nat, k: nat)
    requires a < Pow2(k)
    ensures Apply(Or, a, ShiftLeft(b, k)) == a + ShiftLeft(b, k)
    decreases k
  {
    if k == 0 {
      Commutes(Or, a, b);
      ZeroIsIdentity(Or, b);
    } else {
      ShiftLeftStep(b, k);
      OrDisjoint(a / 2, b, k - 1);
    }
  }

  lemma ShiftLeftStep(b: nat, k: nat)
    requires k > 0
    ensures ShiftLeft(b, k) == 2 * ShiftLeft(b, k - 1)
  {
  }
}
