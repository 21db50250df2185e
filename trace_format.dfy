/** The text of a floating-point trace record: an operand line
    "<OP> <hex> <hex>\n" followed by a result line "  <hex>\n". Every value is
    shown as its 32-bit pattern in 8 lower-case, zero-padded hexadecimal digits. */
module TraceFormat {
  import opened FpTypes
  import Utils
  import Arith

  predicate IsHexDigit(c: char)
  {
    '0' <= c <= '9' || 'a' <= c <= 'f'
  }

  predicate AllHex(s: string)
  {
    forall i | 0 <= i < |s| :: IsHexDigit(s[i])
  }

  function DigitChar(d: nat): (c: char)
    requires d < 16
    ensures IsHexDigit(c)
  {
    if d < 10 then ('0' as int + d) as char else ('a' as int + d - 10) as char
  }

  function DigitValue(c: char): (d: nat)
    requires IsHexDigit(c)
    ensures d < 16
  {
    if c <= '9' then c as int - '0' as int else c as int - 'a' as int + 10
  }

  lemma DigitRoundTrip(d: nat, c: char)
    requires d < 16 && IsHexDigit(c)
    ensures DigitValue(DigitChar(d)) == d
    ensures DigitChar(DigitValue(c)) == c
  {
  }

  function Pow16(n: nat): (p: nat)
    ensures p > 0
  {
    if n == 0 then 1 else 16 * Pow16(n - 1)
  }

  /** The low n hexadecimal digits of x, most significant first. */
  function HexN(x: nat, n: nat): (s: string)
    ensures |s| == n && AllHex(s)
  {
    if n == 0 then [] else HexN(x / 16, n - 1) + [DigitChar(x % 16)]
  }

  /** FLT32_TO_HEX: the bit pattern as 8 zero-padded lower-case hex digits. */
  function Hex8(x: Bits32): (s: string)
    ensures |s| == 8 && AllHex(s)
  {
    HexN(x, 8)
  }

  /** The number a string of hex digits denotes. */
  function ParseHex(s: string): (x: nat)
    requires AllHex(s)
    ensures x < Pow16(|s|)
  {
    if s == [] then 0
    else
      var front := s[..|s| - 1];
      assert AllHex(front) by {
        forall i | 0 <= i < |front| ensures IsHexDigit(front[i]) {
          assert front[i] == s[i];
        }
      }
      16 * ParseHex(front) + DigitValue(s[|s| - 1])
  }

  lemma ModSplit(x: nat, m: nat)
    requires m > 0
    ensures x % (16 * m) == 16 * ((x / 16) % m) + x % 16
  {
    var q, r := x / 16, x % 16;
    var a, b := q / m, q % m;
    assert q == a * m + b;
    assert x == a * (16 * m) + (16 * b + r);
    Arith.DivModUnique(x, 16 * m, a, 16 * b + r);
  }

  /** Decoding n hex digits of x recovers x modulo 16^n. */
  lemma {:induction false} ParseHexN(x: nat, n: nat)
    ensures ParseHex(HexN(x, n)) == x % Pow16(n)
  {
    if n > 0 {
      var s := HexN(x, n);
      assert s[..n - 1] == HexN(x / 16, n - 1);
      ParseHexN(x / 16, n - 1);
      DigitRoundTrip(x % 16, '0');
      ModSplit(x, Pow16(n - 1));
    }
  }

  /** Encoding what a string of hex digits denotes gives the string back. */
  lemma {:induction false} HexNParse(s: string)
    requires AllHex(s)
    ensures HexN(ParseHex(s), |s|) == s
    decreases |s|
  {
    if s != [] {
      var front, last := s[..|s| - 1], s[|s| - 1];
      assert AllHex(front) by {
        forall i | 0 <= i < |front| ensures IsHexDigit(front[i]) {
          assert front[i] == s[i];
        }
      }
      var x := ParseHex(s);
      DigitRoundTrip(0, last);
      Arith.DivModUnique(x, 16, ParseHex(front), DigitValue(last));
      HexNParse(front);
      assert s == front + [last];
    }
  }

  lemma Pow16Of8()
    ensures Pow16(8) == 0x1_0000_0000
  {
    assert Pow16(2) == 256;
    assert Pow16(4) == 0x1_0000;
    assert Pow16(6) == 0x100_0000;
  }

  /** The 8-digit rendering is decoded back to the same 32-bit pattern. */
  lemma Hex8RoundTrip(x: Bits32)
    ensures ParseHex(Hex8(x)) == x
  {
    ParseHexN(x, 8);
    Pow16Of8();
    Arith.DivModUnique(x, Pow16(8), 0, x);
  }

  /** Every 8-digit lower-case hex string is the rendering of exactly one pattern. */
  lemma ParseHex8RoundTrip(s: string)
    requires |s| == 8 && AllHex(s)
    ensures ParseHex(s) < 0x1_0000_0000
    ensures Hex8(ParseHex(s) as Bits32) == s
  {
    Pow16Of8();
    HexNParse(s);
  }

  lemma Hex8Injective(x: Bits32, y: Bits32)
    ensures Hex8(x) == Hex8(y) <==> x == y
  {
    Hex8RoundTrip(x);
    Hex8RoundTrip(y);
  }

  /** OPCODE_StringShort for the four arithmetic opcodes. */
  function ShortName(op: Opcode): (name: string)
    requires Utils.IsFpInstruction(op)
    ensures |name| == 5
  {
    match op
    case ADDSS => "ADDSS"
    case SUBSS => "SUBSS"
    case MULSS => "MULSS"
    case DIVSS => "DIVSS"
  }

  lemma ShortNameInjective(a: Opcode, b: Opcode)
    requires Utils.IsFpInstruction(a) && Utils.IsFpInstruction(b)
    ensures ShortName(a) == ShortName(b) <==> a == b
  {
  }

  /** The floating-point `>` on two bit patterns, left abstract. */
  type Greater = (Bits32, Bits32) -> bool

  /** The order the two operands are printed in: subtraction and division keep
      their order; otherwise the larger operand goes first, so that the
      record does not depend on the order of the operands of a commutative
      operation. */
  function OperandOrder(greater: Greater, op: Opcode, operand1: Bits32, operand2: Bits32): (p: (Bits32, Bits32))
    ensures multiset{p.0, p.1} == multiset{operand1, operand2}
    ensures op == SUBSS || op == DIVSS ==> p == (operand1, operand2)
    ensures op != SUBSS && op != DIVSS ==> (p == (operand1, operand2) <==> greater(operand1, operand2) || operand1 == operand2)
  {
    if op == SUBSS || op == DIVSS || greater(operand1, operand2) then (operand1, operand2) else (operand2, operand1)
  }

  /** For a commutative opcode, a comparison that strictly orders the two
      (different) operands makes the printed order independent of operand
      order; equal patterns print the same either way. */
  lemma CommutativeOperandsCanonical(greater: Greater, op: Opcode, a: Bits32, b: Bits32)
    requires op != SUBSS && op != DIVSS
    requires a != b ==> greater(a, b) != greater(b, a)
    ensures OperandOrder(greater, op, a, b) == OperandOrder(greater, op, b, a)
  {
  }

  /** When the comparison calls neither operand greater (a tie, as between
      +0 and -0), swapping different operands swaps the printed order. */
  lemma TieIsNotCanonical(greater: Greater, op: Opcode, a: Bits32, b: Bits32)
    requires op != SUBSS && op != DIVSS && a != b
    requires !greater(a, b) && !greater(b, a)
    ensures OperandOrder(greater, op, a, b) != OperandOrder(greater, op, b, a)
  {
  }

  /** The operand line for operands already put in printing order. */
  function OrderedOperandLine(op: Opcode, first: Bits32, second: Bits32): (line: string)
    requires Utils.IsFpInstruction(op)
    ensures |line| == 24
  {
    ShortName(op) + " " + Hex8(first) + " " + Hex8(second) + "\n"
  }

  /** The operand line, newline included. */
  function OperandLine(greater: Greater, op: Opcode, operand1: Bits32, operand2: Bits32): (line: string)
    requires Utils.IsFpInstruction(op)
    ensures var p := OperandOrder(greater, op, operand1, operand2);
      line == OrderedOperandLine(op, p.0, p.1)
    ensures op == SUBSS || op == DIVSS ==> line == OrderedOperandLine(op, operand1, operand2)
  {
    var p := OperandOrder(greater, op, operand1, operand2);
    OrderedOperandLine(op, p.0, p.1)
  }

  /** The result line, newline included. */
  function ResultLine(result: Bits32): (line: string)
    ensures |line| == 11
  {
    "  " + Hex8(result) + "\n"
  }

  /** A record as the printer emits it, with the operands already ordered. */
  datatype Record = Record(opcode: Opcode, first: Bits32, second: Bits32, result: Bits32)

  predicate WellFormed(r: Record)
  {
    Utils.IsFpInstruction(r.opcode)
  }

  /** The text of a record whose operands are printed in the given order. */
  function RecordText(r: Record): (text: string)
    requires WellFormed(r)
    ensures |text| == 35
  {
    OrderedOperandLine(r.opcode, r.first, r.second) + ResultLine(r.result)
  }

  /** The text of a sequence of records. */
  function TraceText(records: seq<Record>): (text: string)
    requires forall i | 0 <= i < |records| :: WellFormed(records[i])
    ensures |text| == 35 * |records|
  {
    if records == [] then [] else TraceText(records[..|records| - 1]) + RecordText(records[|records| - 1])
  }
}
