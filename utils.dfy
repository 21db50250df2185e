/** The opcode classifier shared by every instrumentation routine, and a
    sequence fact shared by the proofs about output and stacks. */
module Utils {
  import opened FpTypes

  /** IsFpInstruction: true exactly for ADDSS, SUBSS, MULSS and DIVSS. The
      answer depends on nothing but the instruction's opcode. */
  predicate IsFpInstruction(op: Opcode)
    ensures IsFpInstruction(op) <==> !op.Other?
  {
    match op
    case ADDSS => true
    case SUBSS => true
    case MULSS => true
    case DIVSS => true
    case Other(_) => false
  }

  lemma AppendAssoc<T>(a: seq<T>, b: seq<T>, c: seq<T>)
    ensures (a + b) + c == a + (b + c)
  {
  }
}
