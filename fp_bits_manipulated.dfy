/** The mantissa-bits statistic: for every operand and result of an arithmetic
    instruction, the number of significant bits of the 23-bit trailing
    significand field of the IEEE 754 binary32 pattern (IEEE 754-2008, section
    3.4) is added to one running 64-bit total. */
module FpBitsManipulated {
  import opened FpTypes
  import Arith

  const MantissaModulus: nat := 0x80_0000
  const Uint64Modulus: nat := 0x1_0000_0000_0000_0000

  function Pow2(n: nat): (p: nat)
    ensures p > 0
  {
    if n == 0 then 1 else 2 * Pow2(n - 1)
  }

  /** bits & 0x007fffff: the trailing significand field; the sign and
      exponent bits are dropped. */
  function Mantissa(x: Bits32): (m: nat)
    ensures m < MantissaModulus
    ensures m == 0 <==> x % MantissaModulus == 0
  {
    x % MantissaModulus
  }

  lemma DoubleMod(q: nat, p: nat)
    requires p > 0
    ensures (2 * q) % (2 * p) == 2 * (q % p)
  {
    Arith.DivModUnique(2 * q, 2 * p, q / p, 2 * (q % p));
  }

  /** ffs: the 1-based position of the least significant set bit. */
  function Ffs(m: nat): (r: nat)
    requires m > 0
    ensures r >= 1
    ensures r == 1 <==> m % 2 == 1
    decreases m
  {
    if m % 2 == 1 then 1 else 1 + Ffs(m / 2)
  }

  /** ffs(m) locates the lowest set bit: m is a multiple of 2^(ffs(m)-1) but
      not of 2^ffs(m). */
  lemma {:induction false} FfsLocatesLowestSetBit(m: nat)
    requires m > 0
    ensures m % Pow2(Ffs(m) - 1) == 0 && m % Pow2(Ffs(m)) != 0
    decreases m
  {
    if m % 2 == 0 {
      var r := Ffs(m);
      FfsLocatesLowestSetBit(m / 2);
      assert m == 2 * (m / 2);
      DoubleMod(m / 2, Pow2(r - 2));
      DoubleMod(m / 2, Pow2(r - 1));
    }
  }

  lemma Pow2Of23()
    ensures Pow2(23) == MantissaModulus
  {
    assert Pow2(4) == 16;
    assert Pow2(8) == 256;
    assert Pow2(12) == 4096;
    assert Pow2(16) == 65536;
    assert Pow2(20) == 0x10_0000;
  }

  /** A value below 2^k has its lowest set bit at position k or lower. */
  lemma {:induction false} FfsBelow(m: nat, k: nat)
    requires 0 < m < Pow2(k)
    ensures Ffs(m) <= k
    decreases m
  {
    if m % 2 == 0 {
      FfsBelow(m / 2, k - 1);
    }
  }

  /** The bits of x's mantissa that are in use: 0 for a zero mantissa,
      otherwise 24 - ffs(mantissa), which counts from the top of the 23-bit
      field down to and including its lowest set bit. */
  function MantissaBitsUsed(x: Bits32): (n: nat)
    ensures n <= 23
    ensures n == 0 <==> Mantissa(x) == 0
  {
    var m := Mantissa(x);
    if m == 0 then 0
    else
      Pow2Of23();
      FfsBelow(m, 23);
      24 - Ffs(m)
  }

  /** A non-zero count n locates the mantissa's lowest set bit: the mantissa is
      a multiple of 2^(23-n) but not of 2^(24-n). */
  lemma BitsUsedLocatesLowestSetBit(x: Bits32)
    requires MantissaBitsUsed(x) > 0
    ensures var n := MantissaBitsUsed(x);
      Mantissa(x) % Pow2(23 - n) == 0 && Mantissa(x) % Pow2(24 - n) != 0
  {
    var m := Mantissa(x);
    Pow2Of23();
    FfsBelow(m, 23);
    FfsLocatesLowestSetBit(m);
    assert MantissaBitsUsed(x) == 24 - Ffs(m);
  }

  /** Only the mantissa matters: the sign and exponent bits never change the count. */
  lemma SignAndExponentIgnored(x: Bits32, y: Bits32)
    requires x % MantissaModulus == y % MantissaModulus
    ensures MantissaBitsUsed(x) == MantissaBitsUsed(y)
  {
  }

  /** Short of wrapping at 2^64, counting a value never lowers the total and
      raises it by at most 23. */
  lemma CountNeverDecreases(total: nat, x: Bits32)
    requires total + 23 < Uint64Modulus
    ensures total <= (total + MantissaBitsUsed(x)) % Uint64Modulus <= total + 23
  {
    var sum := total + MantissaBitsUsed(x);
    Arith.DivModUnique(sum, Uint64Modulus, 0, sum);
  }

  /** fp_bits_manipulated and the routines that add to it. */
  class BitsCounter {
    /** The UINT64 running total. */
    var total: nat

    constructor()
      ensures total == 0
    {
      total := 0;
    }

    /** CountFpMantissaBits: adds the bits used by one value, modulo 2^64. */
    method CountFpMantissaBits(x: Bits32)
      requires total < Uint64Modulus
      modifies this
      ensures total < Uint64Modulus
      ensures total == (old(total) + MantissaBitsUsed(x)) % Uint64Modulus
    {
      var bits := Mantissa(x);
      if bits != 0 {
        total := (total + (24 - Ffs(bits))) % Uint64Modulus;
      }
    }

    /** CountRegisterFpOperandBits: counts both register operands. */
    method CountRegisterFpOperandBits(operand1: Bits32, operand2: Bits32)
      requires total < Uint64Modulus
      modifies this
      ensures total < Uint64Modulus
      ensures total == (old(total) + MantissaBitsUsed(operand1) + MantissaBitsUsed(operand2)) % Uint64Modulus
    {
      ghost var start, a, b := total, MantissaBitsUsed(operand1), MantissaBitsUsed(operand2);
      CountFpMantissaBits(operand1);
      assert total == (start + a) % Uint64Modulus;
      CountFpMantissaBits(operand2);
      Arith.ModAddMod(start + a, b, Uint64Modulus);
    }

    /** CountMemoryFpOperandBits: counts the register operand and the one read from memory. */
    method CountMemoryFpOperandBits(operand1: Bits32, memory: map<nat, Bits32>, address: nat)
      requires total < Uint64Modulus && address in memory
      modifies this
      ensures total < Uint64Modulus
      ensures total == (old(total) + MantissaBitsUsed(operand1) + MantissaBitsUsed(memory[address])) % Uint64Modulus
    {
      var operand2 := memory[address];
      CountRegisterFpOperandBits(operand1, operand2);
    }

    /** CountFpResultBits: counts the result. */
    method CountFpResultBits(result: Bits32)
      requires total < Uint64Modulus
      modifies this
      ensures total < Uint64Modulus
      ensures total == (old(total) + MantissaBitsUsed(result)) % Uint64Modulus
    {
      CountFpMantissaBits(result);
    }
  }
}
