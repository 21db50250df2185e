/** Values shared by every part of the model: 32-bit patterns, opcodes,
    implementation identities and the operation record handed to selectors. */
module FpTypes {

  /** The bit pattern of an FLT32 read as a UINT32 (the value Pin's registers hold). */
  type Bits32 = x: int | 0 <= x < 0x1_0000_0000

  /** Pin's OPCODE: the four SSE scalar single-precision arithmetic classes the
      tool recognises, or any other instruction class. */
  datatype Opcode = ADDSS | SUBSS | MULSS | DIVSS | Other(iclass: nat)

  /** The identity (address) of an FpImplementation instance. Implementations
      themselves are uninterpreted: see FpImplementation.Handlers. */
  datatype FpImpl = FpImpl(id: nat)

  /** FpOperation: everything a selector and an implementation are told about
      one intercepted instruction. */
  datatype FpOperation = FpOperation(opcode: Opcode, operand1: Bits32, operand2: Bits32, functionName: string)

  /** One entry of a selector's scope stack, and one pair of a
      (function name, implementation) configuration table. */
  datatype ScopeEntry = ScopeEntry(name: string, impl: FpImpl)

  datatype Option<T> = None | Some(value: T)

  /** The outcome of a call that may terminate the process with exit(code). */
  datatype Exit<T> = Returned(value: T) | Exited(code: int)
}
