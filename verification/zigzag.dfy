/**
 * Zigzag coding of signed 32-bit deltas: the `ZIGZAG_DECODE` macro of the
 * vector-tile renderer and the encoding documented beside it. Decode and
 * Encode state the coding arithmetically; DecodeBits and EncodeBits compute
 * the C expressions on `guint32` bit patterns, and the lemmas at the end show
 * the two agree on every input.
 */
module Zigzag {
  import opened Bits

  /** The value a zigzag code stands for: even codes are halved, odd codes are negative. */
  function Decode(v: uint32): (r: int)
    ensures IsInt32(r)
  {
    if v % 2 == 0 then v / 2 else -((v + 1) / 2)
  }

  /** The zigzag code of a signed 32-bit value. */
  function Encode(n: int): uint32
    requires IsInt32(n)
  {
    if n >= 0 then 2 * n else -2 * n - 1
  }

  /** `-((v) & 1)` on a `guint32`: all ones when v is odd, zero otherwise. */
  function SignMask(v: uint32): uint32 {
    ToUint32(-(Op32(And, v, 1) as int))
  }

  /**
   * `ZIGZAG_DECODE(v)` as C evaluates it: `((v) >> 1) ^ (-((v) & 1))` on a
   * `guint32`, stored into a `gint32`. The logical shift is a halving and the
   * store reinterprets the resulting bit pattern.
   */
  function DecodeBits(v: uint32): (r: int)
    ensures IsInt32(r)
  {
    ToInt32(Op32(Xor, v / 2, SignMask(v)))
  }

  /**
   * `n >> 31` on a `gint32`: the shift is arithmetic, so this is the floor of
   * n / 2^31 (0 or -1), seen as a `guint32` mask.
   */
  function SignFill(n: int): uint32
    requires IsInt32(n)
  {
    ToUint32(n / 0x8000_0000)
  }

  /** The documented encoding `(n << 1) ^ (n >> 31)` of a `gint32`, evaluated on bit patterns. */
  function EncodeBits(n: int): uint32
    requires IsInt32(n)
  {
    Op32(Xor, ToUint32(n * 2), SignFill(n))
  }

  lemma SignMaskValue(v: uint32)
    ensures SignMask(v) == if v % 2 == 0 then 0 else 0xFFFF_FFFF
  {
    Pow2Of32();
    AndLowMask(v, 1);
  }

  lemma XorWithZero(x: uint32)
    ensures Op32(Xor, x, 0) == x
  {
    Pow2Of32();
    ZeroIsIdentity(Xor, x);
  }

  lemma XorWithOnes(x: uint32)
    ensures Op32(Xor, x, 0xFFFF_FFFF) == 0xFFFF_FFFF - x
  {
    Pow2Of32();
    XorAllOnes(x, 32);
  }

  /** An even code 2k decodes to k. */
  lemma DecodeEven(v: uint32, k: nat)
    requires v == 2 * k
    ensures DecodeBits(v) == k
  {
    assert v / 2 == k && v % 2 == 0;
    SignMaskValue(v);
    XorWithZero(k);
  }

  /** An odd code 2k + 1 decodes to -k - 1. */
  lemma DecodeOdd(v: uint32, k: nat)
    requires v == 2 * k + 1
    ensures DecodeBits(v) == -(k as int) - 1
  {
    assert v / 2 == k && v % 2 == 1;
    SignMaskValue(v);
    XorWithOnes(k);
  }

  /** The C macro computes the zigzag value of every 32-bit code; its result lies in the signed 32-bit range. */
  lemma DecodeBitsValue(v: uint32)
    ensures DecodeBits(v) == Decode(v)
  {
    if v % 2 == 0 {
      DecodeEven(v, v / 2);
    } else {
      DecodeOdd(v, v / 2);
    }
  }

  /** The documented bit expression computes the zigzag code of every signed 32-bit value. */
  lemma EncodeBitsValue(n: int)
    requires IsInt32(n)
    ensures EncodeBits(n) == Encode(n)
  {
    var shifted := ToUint32(n * 2);
    if n >= 0 {
      assert SignFill(n) == 0 && shifted == 2 * n;
      XorWithZero(shifted);
    } else {
      assert SignFill(n) == 0xFFFF_FFFF && shifted == n * 2 + 0x1_0000_0000;
      XorWithOnes(shifted);
    }
  }

  /** Decoding inverts the encoding on every signed 32-bit value. */
  lemma DecodeEncode(n: int)
    requires IsInt32(n)
    ensures Decode(Encode(n)) == n
  {
    var v := Encode(n);
    if n >= 0 {
      assert v == 2 * n && v % 2 == 0 && v / 2 == n;
    } else {
      assert v == -2 * n - 1 && v % 2 == 1 && (v as int + 1) / 2 == -n;
    }
  }

  /** Every 32-bit code is the encoding of the value it decodes to. */
  lemma EncodeDecode(v: uint32)
    ensures Encode(Decode(v)) == v
  {
    var n := Decode(v);
    if v % 2 == 0 {
      assert n == v / 2 && Encode(n) == v;
    } else {
      assert n == -((v + 1) / 2) && Encode(n) == v;
    }
  }

  /** The C macro inverts the documented bit expression on every signed 32-bit value. */
  lemma DecodeEncodeBits(n: int)
    requires IsInt32(n)
    ensures DecodeBits(EncodeBits(n)) == n
  {
    DecodeEncode(n);
    EncodeBitsValue(n);
    DecodeBitsValue(Encode(n));
  }

  /** The documented bit expression inverts the C macro on every 32-bit code. */
  lemma EncodeDecodeBits(v: uint32)
    ensures EncodeBits(DecodeBits(v)) == v
  {
    EncodeDecode(v);
    DecodeBitsValue(v);
    EncodeBitsValue(Decode(v));
  }
}
